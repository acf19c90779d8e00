/**
 What a level of the bar runs for a push: the touched packages, everything that
 depends on them, one job per test file, and the touched packages' jobs first.
 */
module Dev {
  import opened Wrappers
  import opened Sorting

  type Name = string

  datatype TestFile = TestFile(name: Name, needsFeature: bool)

  datatype Package = Package(name: Name, dependsOn: seq<Name>, hasLib: bool, hasBins: bool, tests: seq<TestFile>)

  datatype Touched = Touched(wholeWorkspace: bool, crates: set<Name>)

  type Job = seq<string>

  function NamesOf(packages: seq<Package>): set<Name> { set p | p in packages :: p.name }

  function SelectedPackages(touched: Touched, packages: seq<Package>): set<Name> {
    if touched.wholeWorkspace then NamesOf(packages) else touched.crates
  }

  // ---- Who depends on a selected package ----

  ghost predicate Depends(packages: seq<Package>, a: Name, b: Name) {
    exists p :: p in packages && p.name == a && b in p.dependsOn
  }

  /** A chain of one or more dependencies, each on the next. */
  ghost predicate IsChain(packages: seq<Package>, chain: seq<Name>) {
    |chain| >= 2 && forall i :: 0 <= i < |chain| - 1 ==> Depends(packages, chain[i], chain[i + 1])
  }

  ghost predicate Reaches(packages: seq<Package>, name: Name, selected: set<Name>) {
    exists chain :: IsChain(packages, chain) && chain[0] == name && chain[|chain| - 1] in selected
  }

  lemma OneMoreDependency(packages: seq<Package>, selected: set<Name>, a: Name, b: Name)
    requires Depends(packages, a, b) && (b in selected || Reaches(packages, b, selected))
    ensures Reaches(packages, a, selected)
  {
    if b in selected {
      assert IsChain(packages, [a, b]);
    } else {
      var chain :| IsChain(packages, chain) && chain[0] == b && chain[|chain| - 1] in selected;
      var longer := [a] + chain;
      assert forall i :: 0 < i < |longer| - 1 ==> longer[i] == chain[i - 1] && longer[i + 1] == chain[i];
      assert IsChain(packages, longer) && longer[|longer| - 1] == chain[|chain| - 1];
    }
  }

  ghost predicate Closed(packages: seq<Package>, above: set<Name>) {
    forall p :: p in packages && (exists d :: d in p.dependsOn && d in above) ==> p.name in above
  }

  lemma {:induction false} AClosedSetHoldsEveryChain(packages: seq<Package>, above: set<Name>, chain: seq<Name>)
    requires Closed(packages, above) && IsChain(packages, chain) && chain[|chain| - 1] in above
    ensures chain[0] in above
    decreases |chain|
  {
    assert Depends(packages, chain[0], chain[1]);
    if |chain| > 2 {
      var rest := chain[1..];
      forall i | 0 <= i < |rest| - 1
        ensures Depends(packages, rest[i], rest[i + 1])
      {
        assert Depends(packages, chain[i + 1], chain[i + 1 + 1]);
      }
      AClosedSetHoldsEveryChain(packages, above, rest);
    }
  }

  lemma ASubsetOfTheSameSizeIsTheSame<T>(a: set<T>, b: set<T>)
    requires a <= b && |a| == |b|
    ensures a == b
  {
    assert b == a + (b - a);
    assert |b| == |a| + |b - a|;
  }

  ghost predicate AllReach(packages: seq<Package>, above: set<Name>, selected: set<Name>) {
    forall name :: name in above ==> name in selected || Reaches(packages, name, selected)
  }

  /** One pass over the packages, each joining as soon as one it depends on is in. */
  method Pass(selected: set<Name>, packages: seq<Package>, before: set<Name>) returns (above: set<Name>)
    requires AllReach(packages, before, selected)
    ensures before <= above && above - before <= NamesOf(packages) && AllReach(packages, above, selected)
    ensures above == before ==> Closed(packages, above)
  {
    hide Reaches;
    above := before;
    for i := 0 to |packages|
      invariant before <= above && above - before <= NamesOf(packages)
      invariant AllReach(packages, above, selected)
      invariant above == before ==> Closed(packages[..i], above)
    {
      var package := packages[i];
      assert packages[..i + 1] == packages[..i] + [package];
      if exists d | d in package.dependsOn :: d in above {
        var d :| d in package.dependsOn && d in above;
        assert Depends(packages, package.name, d);
        OneMoreDependency(packages, selected, package.name, d);
        above := above + {package.name};
      }
    }
    assert packages[..|packages|] == packages;
  }

  lemma AClosedSetHoldsAllThatReach(packages: seq<Package>, selected: set<Name>, above: set<Name>, name: Name)
    requires Closed(packages, above) && selected <= above && Reaches(packages, name, selected)
    ensures name in above
  {
    var chain :| IsChain(packages, chain) && chain[0] == name && chain[|chain| - 1] in selected;
    AClosedSetHoldsEveryChain(packages, above, chain);
  }

  lemma FewerAreLeft(names: set<Name>, before: set<Name>, above: set<Name>)
    requires before <= above && above - before <= names && |above| != |before|
    ensures |names - above| < |names - before|
  {
    assert above == before + (above - before);
    assert above - before != {};
    var name :| name in above - before;
    Smaller(names - above, names - before, name);
  }

  lemma Smaller(a: set<Name>, b: set<Name>, name: Name)
    requires a <= b && name in b && name !in a
    ensures |a| < |b|
  {
    assert b == a + (b - a);
    assert name in b - a;
  }

  /**
   **Exactly the packages that reach a selected one by one or more dependencies**
   and are not selected themselves. Each pass adds a package, so the passes end.
   */
  method DependentsLeftOut(selected: set<Name>, packages: seq<Package>) returns (left: set<Name>)
    ensures forall name :: name in left <==> name !in selected && Reaches(packages, name, selected)
  {
    hide Reaches, Closed, NamesOf;
    var above := selected;
    while true
      invariant selected <= above && AllReach(packages, above, selected)
      decreases |NamesOf(packages) - above|
    {
      var before := above;
      above := Pass(selected, packages, before);
      if |above| == |before| {
        ASubsetOfTheSameSizeIsTheSame(before, above);
        left := above - selected;
        forall name | name !in selected && Reaches(packages, name, selected)
          ensures name in above
        {
          AClosedSetHoldsAllThatReach(packages, selected, above, name);
        }
        return;
      }
      FewerAreLeft(NamesOf(packages), before, above);
    }
  }

  /** The touched packages and everything that reaches one. */
  method WithDependents(touched: Touched, packages: seq<Package>) returns (all: set<Name>)
    ensures
      var selected := SelectedPackages(touched, packages);
      && (forall name :: name in all <==> name in selected || Reaches(packages, name, selected))
      && (touched.wholeWorkspace ==> forall name :: name in selected <==> exists p :: p in packages && p.name == name)
      && (!touched.wholeWorkspace ==> selected == touched.crates)
  {
    all := SelectedPackages(touched, packages);
    var left := DependentsLeftOut(all, packages);
    all := all + left;
  }

  // ---- One place for every test file ----

  datatype Why = Slow | NeedsFeature

  datatype Skipped = Skipped(package: Name, file: Name, why: Why)

  datatype PlanJob = Lib(package: Name) | Bins(package: Name) | Test(package: Name, file: Name)

  /** The arguments after `cargo test`. */
  function Args(job: PlanJob): Job {
    match job
    case Lib(package) => ["-p", package, "--lib"]
    case Bins(package) => ["-p", package, "--bins"]
    case Test(package, file) => ["-p", package, "--test", file]
  }

  datatype DevPlan = DevPlan(run: seq<PlanJob>, skipped: seq<Skipped>, unmeasured: nat)

  /** One recorded run of a job; `slow` judges a job by all of its runs. */
  type JobRun = nat

  type History = map<string, seq<JobRun>>

  function RunsOf(history: History, file: Name): seq<JobRun> {
    if "test-" + file in history then history["test-" + file] else []
  }

  /** Why a file is not run, if it is not: a file never recorded is not slow. */
  function Verdict(history: History, slow: seq<JobRun> -> bool, file: TestFile): Option<Why> {
    if file.needsFeature then Some(NeedsFeature)
    else if RunsOf(history, file.name) != [] && slow(RunsOf(history, file.name)) then Some(Slow)
    else None
  }

  /** The jobs of a package's test files, in the order they are listed. */
  function RunTests(package: Name, tests: seq<TestFile>, history: History, slow: seq<JobRun> -> bool): seq<PlanJob> {
    if tests == [] then []
    else
      var last := tests[|tests| - 1];
      RunTests(package, tests[..|tests| - 1], history, slow)
      + if Verdict(history, slow, last).None? then [Test(package, last.name)] else []
  }

  function SkippedTests(package: Name, tests: seq<TestFile>, history: History, slow: seq<JobRun> -> bool): seq<Skipped> {
    if tests == [] then []
    else
      var last := tests[|tests| - 1];
      var why := Verdict(history, slow, last);
      SkippedTests(package, tests[..|tests| - 1], history, slow)
      + if why.Some? then [Skipped(package, last.name, why.value)] else []
  }

  /** The library, the binaries, then the test files. */
  function JobsOf(package: Package, history: History, slow: seq<JobRun> -> bool): seq<PlanJob> {
    (if package.hasLib then [Lib(package.name)] else [])
    + (if package.hasBins then [Bins(package.name)] else [])
    + RunTests(package.name, package.tests, history, slow)
  }

  function Jobs(packages: seq<Package>, selected: set<Name>, history: History, slow: seq<JobRun> -> bool): seq<PlanJob> {
    if packages == [] then []
    else
      var last := packages[|packages| - 1];
      Jobs(packages[..|packages| - 1], selected, history, slow)
      + if last.name in selected then JobsOf(last, history, slow) else []
  }

  function Skips(packages: seq<Package>, selected: set<Name>, history: History, slow: seq<JobRun> -> bool): seq<Skipped> {
    if packages == [] then []
    else
      var last := packages[|packages| - 1];
      Skips(packages[..|packages| - 1], selected, history, slow)
      + if last.name in selected then SkippedTests(last.name, last.tests, history, slow) else []
  }

  /** Where in a list of jobs a test file stands that no run is recorded of. */
  ghost function UnmeasuredAt(run: seq<PlanJob>, history: History): set<nat> {
    set k: nat | k < |run| && run[k].Test? && ("test-" + run[k].file in history ==> history["test-" + run[k].file] == [])
  }

  lemma OneMoreJob(run: seq<PlanJob>, job: PlanJob, history: History)
    ensures |UnmeasuredAt(run + [job], history)|
      == |UnmeasuredAt(run, history)| + if job.Test? && RunsOf(history, job.file) == [] then 1 else 0
  {
    var before, after := UnmeasuredAt(run, history), UnmeasuredAt(run + [job], history);
    if job.Test? && RunsOf(history, job.file) == [] {
      assert after == before + {|run|};
    } else {
      assert after == before;
    }
  }

  ghost predicate Measured(plan: DevPlan, history: History) { plan.unmeasured == |UnmeasuredAt(plan.run, history)| }

  method PlanFile(plan: DevPlan, package: Name, file: TestFile, history: History, slow: seq<JobRun> -> bool)
    returns (next: DevPlan)
    requires Measured(plan, history)
    ensures Measured(next, history)
    ensures var why := Verdict(history, slow, file);
      && next.run == plan.run + (if why.None? then [Test(package, file.name)] else [])
      && next.skipped == plan.skipped + if why.Some? then [Skipped(package, file.name, why.value)] else []
  {
    hide UnmeasuredAt;
    next := plan;
    if file.needsFeature {
      next := next.(skipped := next.skipped + [Skipped(package, file.name, NeedsFeature)]);
      return;
    }
    var runs := RunsOf(history, file.name);
    if runs == [] {
      next := next.(unmeasured := next.unmeasured + 1);
    } else if slow(runs) {
      next := next.(skipped := next.skipped + [Skipped(package, file.name, Slow)]);
      return;
    }
    next := next.(run := next.run + [Test(package, file.name)]);
    OneMoreJob(plan.run, Test(package, file.name), history);
  }

  lemma NoTests(package: Name, history: History, slow: seq<JobRun> -> bool)
    ensures RunTests(package, [], history, slow) == [] && SkippedTests(package, [], history, slow) == []
  {
  }

  lemma OneMoreTest(package: Name, tests: seq<TestFile>, j: nat, history: History, slow: seq<JobRun> -> bool)
    requires j < |tests|
    ensures
      var why := Verdict(history, slow, tests[j]);
      && RunTests(package, tests[..j + 1], history, slow)
         == RunTests(package, tests[..j], history, slow) + (if why.None? then [Test(package, tests[j].name)] else [])
      && SkippedTests(package, tests[..j + 1], history, slow)
         == SkippedTests(package, tests[..j], history, slow) + if why.Some? then [Skipped(package, tests[j].name, why.value)] else []
  {
    assert tests[..j + 1][..j] == tests[..j];
  }

  method PlanPackage(plan: DevPlan, package: Package, history: History, slow: seq<JobRun> -> bool) returns (next: DevPlan)
    requires Measured(plan, history)
    ensures Measured(next, history)
    ensures next.run == plan.run + JobsOf(package, history, slow)
    ensures next.skipped == plan.skipped + SkippedTests(package.name, package.tests, history, slow)
  {
    hide UnmeasuredAt, Verdict, RunTests, SkippedTests;
    assert RunTests(package.name, package.tests[..0], history, slow) == [] && SkippedTests(package.name, package.tests[..0], history, slow) == [] by {
      NoTests(package.name, history, slow);
    }
    next := plan;
    if package.hasLib {
      OneMoreJob(next.run, Lib(package.name), history);
      next := next.(run := next.run + [Lib(package.name)]);
    }
    if package.hasBins {
      OneMoreJob(next.run, Bins(package.name), history);
      next := next.(run := next.run + [Bins(package.name)]);
    }
    ghost var others := next.run;
    for j := 0 to |package.tests|
      invariant Measured(next, history)
      invariant next.run == others + RunTests(package.name, package.tests[..j], history, slow)
      invariant next.skipped == plan.skipped + SkippedTests(package.name, package.tests[..j], history, slow)
    {
      OneMoreTest(package.name, package.tests, j, history, slow);
      next := PlanFile(next, package.name, package.tests[j], history, slow);
    }
    assert package.tests[..|package.tests|] == package.tests;
  }

  /** A test file of a selected package, as the workspace lists it. */
  ghost predicate Listed(packages: seq<Package>, selected: set<Name>, package: Name, file: TestFile) {
    package in selected && exists p :: p in packages && p.name == package && file in p.tests
  }

  /**
   The plan of a push, in the order of the packages. **A listed test file is skipped
   because it needs a feature, or else because runs of it are recorded and are slow;
   every other one is run**, and a file that is run unmeasured is counted.
   */
  method Plan(selected: set<Name>, packages: seq<Package>, history: History, slow: seq<JobRun> -> bool) returns (plan: DevPlan)
    ensures plan.run == Jobs(packages, selected, history, slow) && plan.skipped == Skips(packages, selected, history, slow)
    ensures forall package, name :: Skipped(package, name, NeedsFeature) in plan.skipped <==>
      Listed(packages, selected, package, TestFile(name, true))
    ensures forall package, name :: Skipped(package, name, Slow) in plan.skipped <==>
      && Listed(packages, selected, package, TestFile(name, false))
      && "test-" + name in history && history["test-" + name] != [] && slow(history["test-" + name])
    ensures forall package, name :: Test(package, name) in plan.run <==>
      && Listed(packages, selected, package, TestFile(name, false))
      && !("test-" + name in history && history["test-" + name] != [] && slow(history["test-" + name]))
    ensures forall package :: Lib(package) in plan.run <==>
      package in selected && exists p :: p in packages && p.name == package && p.hasLib
    ensures forall package :: Bins(package) in plan.run <==>
      package in selected && exists p :: p in packages && p.name == package && p.hasBins
    ensures plan.unmeasured == |UnmeasuredAt(plan.run, history)|
  {
    plan := DevPlan([], [], 0);
    hide UnmeasuredAt, JobsOf, SkippedTests;
    assert Measured(plan, history) by {
      NoJobs(history);
    }
    for i := 0 to |packages|
      invariant Measured(plan, history)
      invariant plan.run == Jobs(packages[..i], selected, history, slow)
      invariant plan.skipped == Skips(packages[..i], selected, history, slow)
    {
      assert packages[..i + 1][..i] == packages[..i];
      if packages[i].name in selected {
        plan := PlanPackage(plan, packages[i], history, slow);
      }
    }
    assert packages[..|packages|] == packages;
    hide Jobs, Skips, Listed;
    forall package, name
      ensures Test(package, name) in plan.run <==>
        Listed(packages, selected, package, TestFile(name, false)) && Verdict(history, slow, TestFile(name, false)).None?
      ensures Skipped(package, name, NeedsFeature) in plan.skipped <==> Listed(packages, selected, package, TestFile(name, true))
      ensures Skipped(package, name, Slow) in plan.skipped <==>
        Listed(packages, selected, package, TestFile(name, false)) && Verdict(history, slow, TestFile(name, false)) == Some(Slow)
    {
      WhereATestGoes(packages, selected, history, slow, package, name);
    }
    OtherJobs(packages, selected, history, slow);
  }

  lemma NoJobs(history: History)
    ensures |UnmeasuredAt([], history)| == 0
  {
    assert UnmeasuredAt([], history) == {};
  }

  lemma {:induction false} TestsRunOrSkipped(package: Name, tests: seq<TestFile>, history: History, slow: seq<JobRun> -> bool)
    ensures forall job :: job in RunTests(package, tests, history, slow) <==>
      job.Test? && job.package == package && exists f :: f in tests && f.name == job.file && Verdict(history, slow, f).None?
    ensures forall skip :: skip in SkippedTests(package, tests, history, slow) <==>
      skip.package == package && exists f :: f in tests && f.name == skip.file && Verdict(history, slow, f) == Some(skip.why)
  {
    hide Verdict;
    if tests != [] {
      var init, last := tests[..|tests| - 1], tests[|tests| - 1];
      assert tests == init + [last];
      TestsRunOrSkipped(package, init, history, slow);
    }
  }

  lemma {:induction false} JobsOfThePackages(packages: seq<Package>, selected: set<Name>, history: History, slow: seq<JobRun> -> bool)
    ensures forall job :: job in Jobs(packages, selected, history, slow) <==>
      exists p :: p in packages && p.name in selected && job in JobsOf(p, history, slow)
    ensures forall skip :: skip in Skips(packages, selected, history, slow) <==>
      exists p :: p in packages && p.name in selected && skip in SkippedTests(p.name, p.tests, history, slow)
  {
    hide JobsOf, SkippedTests;
    if packages != [] {
      var init, last := packages[..|packages| - 1], packages[|packages| - 1];
      assert packages == init + [last];
      JobsOfThePackages(init, selected, history, slow);
    }
  }

  lemma JobsOfOne(p: Package, history: History, slow: seq<JobRun> -> bool)
    ensures forall job :: job in JobsOf(p, history, slow) <==>
      match job
      case Lib(package) => package == p.name && p.hasLib
      case Bins(package) => package == p.name && p.hasBins
      case Test(package, file) => package == p.name && exists f :: f in p.tests && f.name == file && Verdict(history, slow, f).None?
  {
    hide Verdict;
    TestsRunOrSkipped(p.name, p.tests, history, slow);
  }

  lemma OtherJobs(packages: seq<Package>, selected: set<Name>, history: History, slow: seq<JobRun> -> bool)
    ensures forall package :: Lib(package) in Jobs(packages, selected, history, slow) <==>
      package in selected && exists p :: p in packages && p.name == package && p.hasLib
    ensures forall package :: Bins(package) in Jobs(packages, selected, history, slow) <==>
      package in selected && exists p :: p in packages && p.name == package && p.hasBins
  {
    hide Jobs, JobsOf, Verdict;
    JobsOfThePackages(packages, selected, history, slow);
    forall p: Package
      ensures forall package :: Lib(package) in JobsOf(p, history, slow) <==> package == p.name && p.hasLib
      ensures forall package :: Bins(package) in JobsOf(p, history, slow) <==> package == p.name && p.hasBins
    {
      JobsOfOne(p, history, slow);
    }
  }

  lemma WhereATestGoes(packages: seq<Package>, selected: set<Name>, history: History, slow: seq<JobRun> -> bool,
                       package: Name, name: Name)
    ensures Test(package, name) in Jobs(packages, selected, history, slow) <==>
      Listed(packages, selected, package, TestFile(name, false)) && Verdict(history, slow, TestFile(name, false)).None?
    ensures Skipped(package, name, NeedsFeature) in Skips(packages, selected, history, slow) <==>
      Listed(packages, selected, package, TestFile(name, true))
    ensures Skipped(package, name, Slow) in Skips(packages, selected, history, slow) <==>
      Listed(packages, selected, package, TestFile(name, false)) && Verdict(history, slow, TestFile(name, false)) == Some(Slow)
  {
    hide Jobs, Skips, JobsOf, SkippedTests;
    JobsOfThePackages(packages, selected, history, slow);
    forall p: Package
      ensures Test(package, name) in JobsOf(p, history, slow) <==>
        package == p.name && TestFile(name, false) in p.tests && Verdict(history, slow, TestFile(name, false)).None?
      ensures Skipped(package, name, NeedsFeature) in SkippedTests(p.name, p.tests, history, slow) <==>
        package == p.name && TestFile(name, true) in p.tests
      ensures Skipped(package, name, Slow) in SkippedTests(p.name, p.tests, history, slow) <==>
        package == p.name && TestFile(name, false) in p.tests && Verdict(history, slow, TestFile(name, false)) == Some(Slow)
    {
      JobsOfOne(p, history, slow);
      TestsRunOrSkipped(p.name, p.tests, history, slow);
      assert forall f: TestFile :: f == TestFile(f.name, f.needsFeature);
    }
  }

  lemma {:induction false} TestsStandInOrder(package: Name, a: seq<TestFile>, b: seq<TestFile>, history: History,
                                             slow: seq<JobRun> -> bool)
    ensures RunTests(package, a + b, history, slow) == RunTests(package, a, history, slow) + RunTests(package, b, history, slow)
    decreases |b|
  {
    if b == [] {
      assert a + b == a;
    } else {
      var n := |b| - 1;
      assert (a + b)[..|a| + n] == a + b[..n];
      TestsStandInOrder(package, a, b[..n], history, slow);
    }
  }

  /** **In one package the library comes first, then the binaries, then the tests.** */
  lemma TheLibraryComesFirst(p: Package, history: History, slow: seq<JobRun> -> bool)
    ensures forall i, j :: 0 <= i < j < |JobsOf(p, history, slow)| ==>
      !JobsOf(p, history, slow)[j].Lib? && (JobsOf(p, history, slow)[j].Bins? ==> JobsOf(p, history, slow)[i].Lib?)
  {
    var tests := RunTests(p.name, p.tests, history, slow);
    TestsRunOrSkipped(p.name, p.tests, history, slow);
    var others := (if p.hasLib then [Lib(p.name)] else []) + (if p.hasBins then [Bins(p.name)] else []);
    var jobs := others + tests;
    assert JobsOf(p, history, slow) == jobs;
    forall k | |others| <= k < |jobs|
      ensures jobs[k].Test?
    {
      assert jobs[k] == tests[k - |others|] && tests[k - |others|] in tests;
    }
  }

  /** **Jobs and skips stand in the order of the packages.** */
  lemma {:induction false} JobsStandInOrder(a: seq<Package>, b: seq<Package>, selected: set<Name>, history: History,
                                            slow: seq<JobRun> -> bool)
    ensures Jobs(a + b, selected, history, slow) == Jobs(a, selected, history, slow) + Jobs(b, selected, history, slow)
    ensures Skips(a + b, selected, history, slow) == Skips(a, selected, history, slow) + Skips(b, selected, history, slow)
    decreases |b|
  {
    hide SkippedTests, JobsOf;
    if b == [] {
      assert a + b == a;
    } else {
      var n := |b| - 1;
      assert (a + b)[..|a| + n] == a + b[..n];
      JobsStandInOrder(a, b[..n], selected, history, slow);
    }
  }

  /** How often the tests of the selected packages name this one. */
  function Listings(packages: seq<Package>, selected: set<Name>, package: Name, file: Name): nat {
    if packages == [] then 0
    else
      var last := packages[|packages| - 1];
      Listings(packages[..|packages| - 1], selected, package, file)
      + if last.name in selected && last.name == package then Named(last.tests, file) else 0
  }

  function Named(tests: seq<TestFile>, file: Name): nat {
    if tests == [] then 0
    else Named(tests[..|tests| - 1], file) + if tests[|tests| - 1].name == file then 1 else 0
  }

  lemma {:induction false} EveryTestHasOneVerdict(owner: Name, tests: seq<TestFile>, history: History, slow: seq<JobRun> -> bool,
                                                  package: Name, file: Name)
    ensures
      var skipped := multiset(SkippedTests(owner, tests, history, slow));
      multiset(RunTests(owner, tests, history, slow))[Test(package, file)]
      + skipped[Skipped(package, file, Slow)] + skipped[Skipped(package, file, NeedsFeature)]
      == if owner == package then Named(tests, file) else 0
  {
    hide Verdict, RunTests, SkippedTests;
    if tests == [] {
      NoTests(owner, history, slow);
    } else {
      var n := |tests| - 1;
      assert tests[..n + 1] == tests;
      EveryTestHasOneVerdict(owner, tests[..n], history, slow, package, file);
      OneMoreTest(owner, tests, n, history, slow);
      var ran, skips := RunTests(owner, tests[..n], history, slow), SkippedTests(owner, tests[..n], history, slow);
      match Verdict(history, slow, tests[n])
      case None =>
        assert RunTests(owner, tests, history, slow) == ran + [Test(owner, tests[n].name)];
        assert SkippedTests(owner, tests, history, slow) == skips;
      case Some(why) =>
        assert RunTests(owner, tests, history, slow) == ran;
        assert SkippedTests(owner, tests, history, slow) == skips + [Skipped(owner, tests[n].name, why)];
        assert why == Slow || why == NeedsFeature;
    }
  }

  lemma OtherJobsNameNoFile(p: Package, history: History, slow: seq<JobRun> -> bool, package: Name, file: Name)
    ensures multiset(JobsOf(p, history, slow))[Test(package, file)]
      == multiset(RunTests(p.name, p.tests, history, slow))[Test(package, file)]
  {
  }

  /**
   **Each test file of each selected package is in exactly one place**: as often
   as it is listed it is run, or skipped as slow, or skipped for its feature.
   */
  lemma {:induction false} EveryFileIsRunOrSkipped(packages: seq<Package>, selected: set<Name>, history: History,
                                                   slow: seq<JobRun> -> bool, package: Name, file: Name)
    ensures
      var skipped := multiset(Skips(packages, selected, history, slow));
      multiset(Jobs(packages, selected, history, slow))[Test(package, file)]
      + skipped[Skipped(package, file, Slow)] + skipped[Skipped(package, file, NeedsFeature)]
      == Listings(packages, selected, package, file)
  {
    hide RunTests, SkippedTests, Named;
    if packages != [] {
      var init, last := packages[..|packages| - 1], packages[|packages| - 1];
      var jobs, skips := Jobs(init, selected, history, slow), Skips(init, selected, history, slow);
      if last.name in selected {
        assert Jobs(packages, selected, history, slow) == jobs + JobsOf(last, history, slow);
        assert Skips(packages, selected, history, slow) == skips + SkippedTests(last.name, last.tests, history, slow);
      } else {
        assert Jobs(packages, selected, history, slow) == jobs && Skips(packages, selected, history, slow) == skips;
      }
      hide Jobs, Skips, JobsOf;
      EveryFileIsRunOrSkipped(init, selected, history, slow, package, file);
      EveryTestHasOneVerdict(last.name, last.tests, history, slow, package, file);
      OtherJobsNameNoFile(last, history, slow, package, file);
    }
  }

  // ---- The touched packages' jobs first ----

  /** The package a job belongs to: the one it names, or the first that lists its test file. */
  function Owner(job: Job, packages: seq<Package>): Option<Name> {
    if |job| >= 2 && job[0] == "-p" then Some(job[1])
    else if |job| == 2 && job[0] == "--test" then FirstWith(job[1], packages)
    else None
  }

  function FirstWith(file: Name, packages: seq<Package>): Option<Name> {
    if packages == [] then None
    else if exists t | t in packages[0].tests :: t.name == file then Some(packages[0].name)
    else FirstWith(file, packages[1..])
  }

  function Tier(job: Job, touched: set<Name>, selected: set<Name>, packages: seq<Package>): nat {
    var owner := Owner(job, packages);
    if owner.Some? && owner.value in touched then 0 else if owner.Some? && owner.value in selected then 1 else 2
  }

  /** This package's tests name the file, and no package listed before it does. */
  ghost predicate FirstLists(packages: seq<Package>, i: nat, file: Name) {
    && i < |packages| && (exists t :: t in packages[i].tests && t.name == file)
    && forall j: nat, t :: j < i && t in packages[j].tests ==> t.name != file
  }

  lemma {:induction false} FirstWithIsTheFirst(file: Name, packages: seq<Package>)
    ensures forall i: nat :: FirstLists(packages, i, file) ==> FirstWith(file, packages) == Some(packages[i].name)
    ensures (forall p, t :: p in packages && t in p.tests ==> t.name != file) ==> FirstWith(file, packages).None?
  {
    if packages != [] {
      FirstWithIsTheFirst(file, packages[1..]);
      forall i: nat | FirstLists(packages, i, file)
        ensures FirstWith(file, packages) == Some(packages[i].name)
      {
        if i > 0 {
          assert packages[1..][i - 1] == packages[i];
          forall j: nat, t | j < i - 1 && t in packages[1..][j].tests
            ensures t.name != file
          {
            assert packages[1..][j] == packages[j + 1];
          }
          assert FirstLists(packages[1..], i - 1, file);
        }
      }
    }
  }

  /** **Whose a job is decides its tier**: the package it names, or the first that lists its test file. */
  lemma WhoseAJobIs(job: Job, name: Name, touched: set<Name>, selected: set<Name>, packages: seq<Package>)
    requires
      || (|job| >= 2 && job[0] == "-p" && job[1] == name)
      || (|job| == 2 && job[0] == "--test" && exists i: nat :: FirstLists(packages, i, job[1]) && packages[i].name == name)
    ensures Tier(job, touched, selected, packages) == 0 <==> name in touched
    ensures Tier(job, touched, selected, packages) == 1 <==> name !in touched && name in selected
    ensures Tier(job, touched, selected, packages) == 2 <==> name !in touched && name !in selected
  {
    if |job| == 2 {
      FirstWithIsTheFirst(job[1], packages);
    }
  }

  /** **A planned job names its own package**, and two planned jobs have different arguments. */
  lemma APlannedJobNamesItsPackage(job: PlanJob, other: PlanJob, touched: set<Name>, selected: set<Name>, packages: seq<Package>)
    ensures Tier(Args(job), touched, selected, packages) == 0 <==> job.package in touched
    ensures job.package in selected ==> Tier(Args(job), touched, selected, packages) <= 1
    ensures Args(job) == Args(other) ==> job == other
  {
    var args := Args(job);
    assert args[0] == "-p" && args[1] == job.package;
    WhoseAJobIs(args, job.package, touched, selected, packages);
    if Args(job) == Args(other) {
      assert Args(other)[1] == other.package && Args(other)[2] == args[2];
      assert "--lib"[2] == 'l' && "--bins"[2] == 'b' && "--test"[2] == 't';
      if job.Test? && other.Test? {
        assert args[3] == job.file && Args(other)[3] == other.file;
      }
    }
  }

  /** **A job that names no package and no listed file is in the last tier.** */
  lemma NobodysJobIsLast(job: Job, touched: set<Name>, selected: set<Name>, packages: seq<Package>)
    requires !(|job| >= 2 && job[0] == "-p")
    requires |job| == 2 && job[0] == "--test" ==> forall p, t :: p in packages && t in p.tests ==> t.name != job[1]
    ensures Tier(job, touched, selected, packages) == 2
  {
    if |job| == 2 {
      FirstWithIsTheFirst(job[1], packages);
    }
  }

  /** The jobs ordered by tier, as any stable sort orders them. */
  ghost predicate IsTouchedFirst(jobs: seq<Job>, ordered: seq<Job>, touched: set<Name>, selected: set<Name>, packages: seq<Package>) {
    IsStableSort(jobs, ordered, job => Tier(job, touched, selected, packages))
  }

  /**
   **Nothing dropped, nothing added**: a stable sort by tier exists, and every one of
   them gives tier 0, tier 1 and tier 2 one after another, and inside a tier the
   order the jobs were listed in.
   */
  lemma TouchedFirstKeepsTheOrder(jobs: seq<Job>, ordered: seq<Job>, touched: set<Name>, selected: set<Name>, packages: seq<Package>)
    ensures
      var key := (job: Job) => Tier(job, touched, selected, packages);
      IsTouchedFirst(jobs, ordered, touched, selected, packages)
      <==> ordered == OfKey(jobs, key, 0) + (OfKey(jobs, key, 1) + OfKey(jobs, key, 2))
    ensures IsTouchedFirst(jobs, ordered, touched, selected, packages) ==> multiset(ordered) == multiset(jobs)
  {
    var key := (job: Job) => Tier(job, touched, selected, packages);
    AnyStableSortIsThreeTiers(jobs, ordered, key);
    TheTiersAreAllTheJobs(jobs, key);
  }
}
