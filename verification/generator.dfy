/**
 `CreateNewProject`: the scaffolding of a new application. It creates and
 enters the project directory, makes the standard directories in a fixed
 order, then renders one file per template, in the iteration order of the
 source's map, stopping at the first failure.

 Every file-system call and template step that can fail is a `Step`; which
 of them fail is the caller's `Faults`. The run records the steps it
 attempted, so that the order of operations can be stated and proved.
 */
module Generator {
  import opened Errors
  import opened FileSystem

  /** The directories made inside the project, in order. */
  const ProjectDirs: seq<string> := [
    "cmd", "config", "controllers", "internal/middleware", "internal/services",
    "models", "migrations", "public", "routes", "templates", "tests"]

  /** Each generated file and its template (a name standing for the
      template's text). */
  const ProjectFiles: map<string, string> := map[
    "main.go" := "main.go template",
    "go.mod" := "go.mod template",
    "config/config.yaml" := "config template",
    "routes/routes.go" := "routes template",
    "controllers/health_controller.go" := "health controller template",
    "models/base.go" := "base model template",
    "internal/middleware/cors.go" := "CORS middleware template",
    ".gitignore" := ".gitignore template",
    "README.md" := "README template"]

  /** A call that can fail. */
  datatype Step =
    | MkdirProject(appName: string)     // os.MkdirAll(appName)
    | Chdir(appName: string)            // os.Chdir(appName)
    | Mkdir(dir: string)                // os.MkdirAll(dir) for a standard directory
    | MkdirFor(file: string, dir: string)  // os.MkdirAll(filepath.Dir(file))
    | Parse(file: string)               // parsing the file's template
    | Create(file: string)              // os.Create(file)
    | Execute(file: string)             // rendering the template into the file

  /** The error each step reports, if it fails. */
  type Faults = Step -> Option<Error>

  /** A run: the tree it leaves, the steps it attempted, its outcome. */
  datatype Run = Run(tree: Tree, trace: seq<Step>, outcome: Outcome)

  /** The steps that render one file, in order. */
  function FileSteps(file: string): seq<Step>
  {
    [MkdirFor(file, Dir(file)), Parse(file), Create(file), Execute(file)]
  }

  function DirSteps(dirs: seq<string>): seq<Step>
  {
    if |dirs| == 0 then [] else [Mkdir(dirs[0])] + DirSteps(dirs[1..])
  }

  function FilesSteps(order: seq<string>): seq<Step>
  {
    if |order| == 0 then [] else FileSteps(order[0]) + FilesSteps(order[1..])
  }

  /** Every step `CreateNewProject` would take if nothing failed, in order. */
  function Plan(appName: string, order: seq<string>): seq<Step>
  {
    PlanOf(appName, ProjectDirs, order)
  }

  /** The position of the first failing step of a plan, or its length. */
  function FirstFault(plan: seq<Step>, faults: Faults): (k: nat)
    ensures k <= |plan|
    ensures k < |plan| ==> faults(plan[k]).Some?
  {
    if |plan| == 0 then 0
    else if faults(plan[0]).Some? then 0
    else 1 + FirstFault(plan[1..], faults)
  }

  /** No step before the first failing one fails. */
  lemma {:induction false} FirstFaultIsFirst(plan: seq<Step>, faults: Faults)
    ensures forall j :: 0 <= j < FirstFault(plan, faults) ==> faults(plan[j]).None?
    decreases |plan|
  {
    if |plan| > 0 && faults(plan[0]).None? {
      FirstFaultIsFirst(plan[1..], faults);
      assert forall j :: 0 < j < FirstFault(plan, faults) ==> plan[j] == plan[1..][j - 1];
    }
  }

  /** The failing steps are found in order: first in the front part, else
      in the rest. */
  lemma {:induction false} FirstFaultAppend(a: seq<Step>, b: seq<Step>, faults: Faults)
    ensures FirstFault(a + b, faults) ==
            if FirstFault(a, faults) < |a| then FirstFault(a, faults) else |a| + FirstFault(b, faults)
    decreases |a|
  {
    if |a| == 0 {
      assert a + b == b;
    } else {
      assert (a + b)[0] == a[0];
      assert (a + b)[1..] == a[1..] + b;
      FirstFaultAppend(a[1..], b, faults);
    }
  }

  /** The steps a run attempts: those of the plan up to and including its
      first failure. */
  predicate StopsAtFirstFault(trace: seq<Step>, plan: seq<Step>, faults: Faults)
  {
    var k := FirstFault(plan, faults);
    trace == if k < |plan| then plan[..k + 1] else plan
  }

  /** The first failing step of one file's steps, spelt out. */
  lemma FirstFaultOfFile(file: string, faults: Faults)
    ensures var steps := FileSteps(file);
            FirstFault(steps, faults) ==
              if faults(steps[0]).Some? then 0
              else if faults(steps[1]).Some? then 1
              else if faults(steps[2]).Some? then 2
              else if faults(steps[3]).Some? then 3
              else 4
  {
    var steps := FileSteps(file);
    FirstFaultIsFirst(steps, faults);
    assert steps[1..][1..] == steps[2..];
    assert steps[2..][1..] == steps[3..];
    assert steps[3..][1..] == [];
  }

  /** The error a failing step makes `generateFile` return. */
  function FileError(step: Step, e: Error): Error
  {
    match step
    case MkdirFor(_, dir) => Wrapped("failed to create directory " + dir, e)
    case Parse(_) => Wrapped("failed to parse template", e)
    case Create(_) => Wrapped("failed to create file", e)
    case _ => Wrapped("failed to execute template", e)
  }

  /** The error a failing step makes `CreateNewProject` return. */
  function ProjectError(step: Step, e: Error): Error
  {
    match step
    case MkdirProject(_) => Wrapped("failed to create project directory", e)
    case Chdir(_) => Wrapped("failed to change to project directory", e)
    case Mkdir(dir) => Wrapped("failed to create directory " + dir, e)
    case MkdirFor(file, _) => Wrapped("failed to generate " + file, FileError(step, e))
    case Parse(file) => Wrapped("failed to generate " + file, FileError(step, e))
    case Create(file) => Wrapped("failed to generate " + file, FileError(step, e))
    case Execute(file) => Wrapped("failed to generate " + file, FileError(step, e))
  }

  /** What a step that succeeds does to the tree: the file's directory is
      made, the file is created empty, the template is rendered into it. */
  function StepEffect(t: Tree, step: Step, template: string, appName: string): (r: Tree)
    ensures t.Keys <= r.Keys
  {
    match step
    case MkdirFor(_, dir) => MakeDirs(t, dir)
    case Create(file) => CreateFile(t, file)
    case Execute(file) => t[file := File(Rendered(template, appName))]
    case _ => t
  }

  /** What a step that fails leaves behind: a rendering that fails has
      already written part of the file; any other failing step is taken to
      change nothing, so the ancestors a failing `os.MkdirAll` may already
      have made are not kept. */
  function FailEffect(t: Tree, step: Step, template: string, appName: string): (r: Tree)
    ensures t.Keys <= r.Keys
  {
    match step
    case Execute(file) => t[file := File(Partial(template, appName))]
    case _ => t
  }

  /** The steps of `generateFile` from some point on, each returning at
      once with its error when it fails. */
  function RunFileSteps(t: Tree, steps: seq<Step>, template: string, appName: string, faults: Faults): (r: Run)
    ensures t.Keys <= r.tree.Keys
    ensures r.outcome.Pass? && |steps| > 0 && steps[|steps| - 1].Execute? ==>
              var file := steps[|steps| - 1].file;
              file in r.tree && r.tree[file] == File(Rendered(template, appName))
    decreases |steps|
  {
    if |steps| == 0 then Run(t, [], Pass)
    else match faults(steps[0])
      case Some(e) => Run(FailEffect(t, steps[0], template, appName), [steps[0]], Fail(FileError(steps[0], e)))
      case None =>
        var rest := RunFileSteps(StepEffect(t, steps[0], template, appName), steps[1..], template, appName, faults);
        assert |steps| > 1 ==> steps[|steps| - 1] == steps[1..][|steps[1..]| - 1];
        Run(rest.tree, [steps[0]] + rest.trace, rest.outcome)
  }

  /** `generateFile`: make the file's directory, parse its template, create
      the file, render into it. */
  function GenerateFile(t: Tree, file: string, template: string, appName: string, faults: Faults): (r: Run)
    ensures t.Keys <= r.tree.Keys
    ensures r.outcome.Pass? ==> file in r.tree && r.tree[file] == File(Rendered(template, appName))
  {
    RunFileSteps(t, FileSteps(file), template, appName, faults)
  }

  /** A run of steps stops at their first fault and reports it. */
  lemma {:induction false} RunFileStepsStops(t: Tree, steps: seq<Step>, template: string, appName: string,
                                             faults: Faults)
    ensures var r := RunFileSteps(t, steps, template, appName, faults);
            && StopsAtFirstFault(r.trace, steps, faults)
            && (var k := FirstFault(steps, faults);
                r.outcome == if k < |steps| then Fail(FileError(steps[k], faults(steps[k]).value)) else Pass)
    decreases |steps|
  {
    var r := RunFileSteps(t, steps, template, appName, faults);
    if |steps| > 0 {
      if faults(steps[0]).None? {
        var rest := RunFileSteps(StepEffect(t, steps[0], template, appName), steps[1..], template, appName, faults);
        RunFileStepsStops(StepEffect(t, steps[0], template, appName), steps[1..], template, appName, faults);
        assert r.trace == [steps[0]] + rest.trace && r.outcome == rest.outcome;
        var k1 := FirstFault(steps[1..], faults);
        assert FirstFault(steps, faults) == 1 + k1;
        StopsAt(rest.trace, steps[1..], k1, faults);
        StopsAt(r.trace, steps, 1 + k1, faults);
        if k1 < |steps[1..]| {
          ConsPrefix(steps, k1 + 2);
        } else {
          ConsPrefix(steps, |steps|);
        }
      } else {
        assert FirstFault(steps, faults) == 0;
        StopsAt(r.trace, steps, 0, faults);
        assert r.trace == [steps[0]] == steps[..1];
      }
    }
  }

  /** `generateFile` takes its four steps in order, stops at the first that
      fails and reports it. */
  lemma GenerateFileSteps(t: Tree, file: string, template: string, appName: string, faults: Faults)
    ensures var r := GenerateFile(t, file, template, appName, faults);
            && StopsAtFirstFault(r.trace, FileSteps(file), faults)
            && (var k := FirstFault(FileSteps(file), faults);
                r.outcome == if k < 4 then Fail(FileError(FileSteps(file)[k], faults(FileSteps(file)[k]).value)) else Pass)
  {
    RunFileStepsStops(t, FileSteps(file), template, appName, faults);
  }

  /** A template that fails to parse leaves no file behind, only the
      directories made for it. */
  lemma GenerateFileParseFault(t: Tree, file: string, template: string, appName: string, faults: Faults)
    requires faults(Parse(file)).Some?
    ensures var r := GenerateFile(t, file, template, appName, faults);
            Create(file) !in r.trace && r.tree.Keys <= t.Keys + DirsOn(Dir(file))
  {
    var steps := FileSteps(file);
    assert steps[1..][0] == Parse(file);
    if faults(steps[0]).None? {
      var t1 := MakeDirs(t, Dir(file));
      var r1 := RunFileSteps(t1, steps[1..], template, appName, faults);
      assert r1 == Run(t1, [Parse(file)], Fail(FileError(Parse(file), faults(Parse(file)).value)));
    }
  }

  /** What a run of `plan` returns: the error of its first failing step. */
  function ProjectOutcome(plan: seq<Step>, faults: Faults): Outcome
  {
    var k := FirstFault(plan, faults);
    if k < |plan| then Fail(ProjectError(plan[k], faults(plan[k]).value)) else Pass
  }

  /** Running `a` and then, only if it passed, `b` stops at the first fault
      of `a + b`. */
  lemma StopsAppend(ta: seq<Step>, tb: seq<Step>, a: seq<Step>, b: seq<Step>, faults: Faults)
    requires StopsAtFirstFault(ta, a, faults)
    requires FirstFault(a, faults) == |a| ==> StopsAtFirstFault(tb, b, faults)
    ensures StopsAtFirstFault(if FirstFault(a, faults) < |a| then ta else ta + tb, a + b, faults)
  {
    FirstFaultAppend(a, b, faults);
    var ka := FirstFault(a, faults);
    StopsAt(ta, a, ka, faults);
    if ka < |a| {
      StopsAt(ta, a + b, ka, faults);
      PrefixOfAppend(a, b, ka + 1);
    } else {
      var kb := FirstFault(b, faults);
      StopsAt(tb, b, kb, faults);
      StopsAt(ta + tb, a + b, |a| + kb, faults);
      if kb < |b| {
        PrefixPastAppend(a, b, kb + 1);
      }
    }
  }

  /** The outcome of `a + b` is that of `a` if `a` fails, else that of `b`. */
  lemma OutcomeAppend(a: seq<Step>, b: seq<Step>, faults: Faults)
    ensures ProjectOutcome(a + b, faults) ==
            if FirstFault(a, faults) < |a| then ProjectOutcome(a, faults) else ProjectOutcome(b, faults)
  {
    FirstFaultAppend(a, b, faults);
    var ka := FirstFault(a, faults);
    if ka < |a| {
      OutcomeAt(a + b, ka, faults);
      OutcomeAt(a, ka, faults);
      StepAt(a, b, ka);
    } else {
      var kb := FirstFault(b, faults);
      OutcomeAt(a + b, |a| + kb, faults);
      OutcomeAt(b, kb, faults);
      if kb < |b| {
        StepPast(a, b, kb);
      }
    }
  }

  /** The standard-directory loop of `CreateNewProject`. A failing
      `os.MkdirAll` is taken to leave the tree as it was. */
  function MakeProjectDirs(t: Tree, dirs: seq<string>, faults: Faults): (r: Run)
    ensures StopsAtFirstFault(r.trace, DirSteps(dirs), faults)
    ensures r.outcome == ProjectOutcome(DirSteps(dirs), faults)
    ensures t.Keys <= r.tree.Keys
    ensures forall q :: q in r.tree ==> r.tree[q] == Directory || (q in t && r.tree[q] == t[q])
    ensures r.outcome.Pass? ==>
              forall i :: 0 <= i < |dirs| && dirs[i] != "." && dirs[i] != "" ==>
                dirs[i] in r.tree && r.tree[dirs[i]] == Directory
    decreases |dirs|
  {
    if |dirs| == 0 then Run(t, [], Pass)
    else
      var first := [Mkdir(dirs[0])];
      assert DirSteps(dirs) == first + DirSteps(dirs[1..]);
      OutcomeAppend(first, DirSteps(dirs[1..]), faults);
      match faults(Mkdir(dirs[0]))
      case Some(e) =>
        StopsAppend(first, [], first, DirSteps(dirs[1..]), faults);
        Run(t, first, Fail(Wrapped("failed to create directory " + dirs[0], e)))
      case None =>
        var t1 := MakeDirs(t, dirs[0]);
        var rest := MakeProjectDirs(t1, dirs[1..], faults);
        StopsAppend(first, rest.trace, first, DirSteps(dirs[1..]), faults);
        MadeDirsStay(t, t1, rest.tree, dirs);
        Run(rest.tree, first + rest.trace, rest.outcome)
  }

  /** The first directory, made in `t1`, is still a directory after the
      rest of the loop, which only adds directories. */
  lemma MadeDirsStay(t: Tree, t1: Tree, t2: Tree, dirs: seq<string>)
    requires |dirs| > 0 && t1 == MakeDirs(t, dirs[0])
    requires t1.Keys <= t2.Keys
    requires forall q :: q in t2 ==> t2[q] == Directory || (q in t1 && t2[q] == t1[q])
    ensures t.Keys <= t2.Keys
    ensures forall q :: q in t2 ==> t2[q] == Directory || (q in t && t2[q] == t[q])
    ensures dirs[0] != "." && dirs[0] != "" ==> dirs[0] in t2 && t2[dirs[0]] == Directory
  {
    if dirs[0] != "." && dirs[0] != "" {
      DirsOnSelf(dirs[0]);
    }
  }

  /** The first failing step of making and entering the project
      directory, spelt out. */
  lemma EnterSteps(appName: string, faults: Faults)
    ensures var enter := [MkdirProject(appName), Chdir(appName)];
            && FirstFault(enter, faults) == (if faults(enter[0]).Some? then 0 else if faults(enter[1]).Some? then 1 else 2)
            && enter[..1] == [MkdirProject(appName)] && enter[..2] == enter
  {
    var enter := [MkdirProject(appName), Chdir(appName)];
    assert enter[1..][1..] == [];
  }

  /** The file loop of `CreateNewProject`, over the files in `order`. */
  function GenerateFiles(t: Tree, order: seq<string>, files: map<string, string>, appName: string,
                         faults: Faults): (r: Run)
    requires forall i :: 0 <= i < |order| ==> order[i] in files
    ensures t.Keys <= r.tree.Keys
    ensures r.outcome.Pass? ==> forall i :: 0 <= i < |order| ==> order[i] in r.tree
    decreases |order|
  {
    if |order| == 0 then Run(t, [], Pass)
    else
      var file := order[0];
      var r0 := GenerateFile(t, file, files[file], appName, faults);
      if r0.outcome.Fail? then
        Run(r0.tree, r0.trace, Fail(Wrapped("failed to generate " + file, r0.outcome.error)))
      else
        var rest := GenerateFiles(r0.tree, order[1..], files, appName, faults);
        assert rest.outcome.Pass? ==> forall i :: 0 < i < |order| ==> order[i] in rest.tree by {
          assert forall i :: 0 < i < |order| ==> order[i] == order[1..][i - 1];
        }
        Run(rest.tree, r0.trace + rest.trace, rest.outcome)
  }

  /** The file loop attempts the files' steps in order and stops at the
      first failure, which it reports wrapped with the file's name. */
  lemma {:induction false} GenerateFilesFollowsPlan(t: Tree, order: seq<string>, files: map<string, string>,
                                                    appName: string, faults: Faults)
    requires forall i :: 0 <= i < |order| ==> order[i] in files
    ensures var r := GenerateFiles(t, order, files, appName, faults);
            && StopsAtFirstFault(r.trace, FilesSteps(order), faults)
            && r.outcome == ProjectOutcome(FilesSteps(order), faults)
    decreases |order|
  {
    if |order| > 0 {
      var file := order[0];
      var r0 := GenerateFile(t, file, files[file], appName, faults);
      FileOutcome(r0, t, file, files[file], appName, faults);
      GenerateFileSteps(t, file, files[file], appName, faults);
      var rest := GenerateFiles(r0.tree, order[1..], files, appName, faults);
      if r0.outcome.Pass? {
        GenerateFilesFollowsPlan(r0.tree, order[1..], files, appName, faults);
        FilesRunCons(r0.trace, true, rest.trace, rest.outcome, order, faults);
      } else {
        FilesRunCons(r0.trace, false, rest.trace, rest.outcome, order, faults);
      }
    }
  }

  /** The run of the first file followed, if it passed, by the run of the
      others, is a run of the whole file plan. */
  lemma FilesRunCons(trace0: seq<Step>, passed: bool, trace1: seq<Step>, outcome1: Outcome, order: seq<string>,
                     faults: Faults)
    requires |order| > 0
    requires StopsAtFirstFault(trace0, FileSteps(order[0]), faults)
    requires passed <==> FirstFault(FileSteps(order[0]), faults) == 4
    requires passed ==> StopsAtFirstFault(trace1, FilesSteps(order[1..]), faults)
    requires passed ==> outcome1 == ProjectOutcome(FilesSteps(order[1..]), faults)
    ensures StopsAtFirstFault(if passed then trace0 + trace1 else trace0, FilesSteps(order), faults)
    ensures ProjectOutcome(FilesSteps(order), faults) ==
            if passed then outcome1 else ProjectOutcome(FileSteps(order[0]), faults)
  {
    var steps := FileSteps(order[0]);
    assert FilesSteps(order) == steps + FilesSteps(order[1..]);
    OutcomeAppend(steps, FilesSteps(order[1..]), faults);
    StopsAppend(trace0, trace1, steps, FilesSteps(order[1..]), faults);
  }

  /** One file's outcome, as `CreateNewProject` reports it: the error of
      `generateFile`, wrapped with the file's name. */
  lemma FileOutcome(r0: Run, t: Tree, file: string, template: string, appName: string, faults: Faults)
    requires r0 == GenerateFile(t, file, template, appName, faults)
    ensures r0.outcome.Pass? <==> FirstFault(FileSteps(file), faults) == 4
    ensures ProjectOutcome(FileSteps(file), faults) ==
            if r0.outcome.Pass? then Pass else Fail(Wrapped("failed to generate " + file, r0.outcome.error))
  {
    GenerateFileSteps(t, file, template, appName, faults);
    FirstFaultOfFile(file, faults);
    var steps := FileSteps(file);
    var k := FirstFault(steps, faults);
    if k < 4 {
      assert steps[k].file == file;
    }
  }

  /** `order` lists every key of `keys` exactly once: one iteration order of
      a Go map. */
  predicate IsEnumeration(order: seq<string>, keys: set<string>)
  {
    && (forall i :: 0 <= i < |order| ==> order[i] in keys)
    && (forall k :: k in keys ==> k in order)
    && (forall i, j :: 0 <= i < j < |order| ==> order[i] != order[j])
  }

  /** Inside the project directory: make the directories, then generate
      the files in `order`. */
  function Populate(t: Tree, faults: Faults, dirs: seq<string>, files: map<string, string>, appName: string,
                    order: seq<string>): (r: Run)
    requires forall i :: 0 <= i < |order| ==> order[i] in files
    ensures t.Keys <= r.tree.Keys
    ensures r.outcome.Pass? ==>
              && (forall i :: 0 <= i < |dirs| && dirs[i] != "." && dirs[i] != "" ==> dirs[i] in r.tree)
              && (forall i :: 0 <= i < |order| ==> order[i] in r.tree)
  {
    var rd := MakeProjectDirs(t, dirs, faults);
    if rd.outcome.Fail? then rd
    else
      var rf := GenerateFiles(rd.tree, order, files, appName, faults);
      Run(rf.tree, rd.trace + rf.trace, rf.outcome)
  }

  lemma PopulateFollowsPlan(t: Tree, faults: Faults, dirs: seq<string>, files: map<string, string>, appName: string,
                            order: seq<string>)
    requires forall i :: 0 <= i < |order| ==> order[i] in files
    ensures var r := Populate(t, faults, dirs, files, appName, order);
            && StopsAtFirstFault(r.trace, DirSteps(dirs) + FilesSteps(order), faults)
            && r.outcome == ProjectOutcome(DirSteps(dirs) + FilesSteps(order), faults)
  {
    var rd := MakeProjectDirs(t, dirs, faults);
    OutcomeAppend(DirSteps(dirs), FilesSteps(order), faults);
    if rd.outcome.Fail? {
      StopsAppend(rd.trace, [], DirSteps(dirs), FilesSteps(order), faults);
    } else {
      var rf := GenerateFiles(rd.tree, order, files, appName, faults);
      GenerateFilesFollowsPlan(rd.tree, order, files, appName, faults);
      StopsAppend(rd.trace, rf.trace, DirSteps(dirs), FilesSteps(order), faults);
    }
  }

  /** The body of `CreateNewProject`, for any directory list and file map:
      create and enter the project directory, then populate it. `t` is the
      project directory's tree as seen once it is entered. */
  function ScaffoldRun(appName: string, t: Tree, faults: Faults, dirs: seq<string>, files: map<string, string>,
                    order: seq<string>): (r: Run)
    requires forall i :: 0 <= i < |order| ==> order[i] in files
    ensures t.Keys <= r.tree.Keys
    ensures r.outcome.Pass? ==>
              && (forall i :: 0 <= i < |dirs| && dirs[i] != "." && dirs[i] != "" ==> dirs[i] in r.tree)
              && (forall i :: 0 <= i < |order| ==> order[i] in r.tree)
  {
    match faults(MkdirProject(appName))
    case Some(e) => Run(t, [MkdirProject(appName)], Fail(Wrapped("failed to create project directory", e)))
    case None =>
      match faults(Chdir(appName))
      case Some(e) =>
        Run(t, [MkdirProject(appName), Chdir(appName)], Fail(Wrapped("failed to change to project directory", e)))
      case None =>
        var rp := Populate(t, faults, dirs, files, appName, order);
        Run(rp.tree, [MkdirProject(appName), Chdir(appName)] + rp.trace, rp.outcome)
  }

  /** `ScaffoldRun` attempts the steps of its plan in order and stops at the
      first one that fails, returning that step's error. */
  lemma ScaffoldFollowsPlan(appName: string, t: Tree, faults: Faults, dirs: seq<string>, files: map<string, string>,
                            order: seq<string>)
    requires forall i :: 0 <= i < |order| ==> order[i] in files
    ensures var r := ScaffoldRun(appName, t, faults, dirs, files, order);
            var plan := [MkdirProject(appName), Chdir(appName)] + (DirSteps(dirs) + FilesSteps(order));
            && StopsAtFirstFault(r.trace, plan, faults)
            && r.outcome == ProjectOutcome(plan, faults)
  {
    var enter := [MkdirProject(appName), Chdir(appName)];
    var rest := DirSteps(dirs) + FilesSteps(order);
    var r := ScaffoldRun(appName, t, faults, dirs, files, order);
    EnterSteps(appName, faults);
    var ke := FirstFault(enter, faults);
    OutcomeAppend(enter, rest, faults);
    OutcomeAt(enter, ke, faults);
    if ke < 2 {
      StopsAt(r.trace, enter, ke, faults);
      StopsAppend(r.trace, [], enter, rest, faults);
    } else {
      var rp := Populate(t, faults, dirs, files, appName, order);
      PopulateFollowsPlan(t, faults, dirs, files, appName, order);
      StopsAt(enter, enter, ke, faults);
      StopsAppend(enter, rp.trace, enter, rest, faults);
    }
  }

  /** `CreateNewProject(appName)`, with the files generated in `order`: it
      attempts the steps of `Plan` in order and stops at the first one that
      fails, returning that step's error; a successful run leaves every
      standard directory and every file of the template map in the project. */
  function CreateNewProject(appName: string, t: Tree, faults: Faults, order: seq<string>): (r: Run)
    requires IsEnumeration(order, ProjectFiles.Keys)
    ensures t.Keys <= r.tree.Keys
    ensures StopsAtFirstFault(r.trace, Plan(appName, order), faults)
    ensures r.outcome == ProjectOutcome(Plan(appName, order), faults)
    ensures r.outcome.Pass? ==> (forall d :: d in ProjectDirs ==> d in r.tree) && ProjectFiles.Keys <= r.tree.Keys
  {
    ScaffoldFollowsPlan(appName, t, faults, ProjectDirs, ProjectFiles, order);
    ProjectDirsNamed();
    ScaffoldLayout(appName, t, faults, ProjectDirs, ProjectFiles, order);
    ScaffoldRun(appName, t, faults, ProjectDirs, ProjectFiles, order)
  }

  /** None of the standard directories is the working directory itself. */
  lemma ProjectDirsNamed()
    ensures forall i :: 0 <= i < |ProjectDirs| ==> ProjectDirs[i] != "." && ProjectDirs[i] != ""
  {
  }

  /** A successful scaffold leaves every directory and every file of the
      map in the project. */
  lemma ScaffoldLayout(appName: string, t: Tree, faults: Faults, dirs: seq<string>, files: map<string, string>,
                       order: seq<string>)
    requires IsEnumeration(order, files.Keys)
    requires forall i :: 0 <= i < |dirs| ==> dirs[i] != "." && dirs[i] != ""
    ensures var r := ScaffoldRun(appName, t, faults, dirs, files, order);
            r.outcome.Pass? ==> (forall d :: d in dirs ==> d in r.tree) && files.Keys <= r.tree.Keys
  {
    var r := ScaffoldRun(appName, t, faults, dirs, files, order);
    if r.outcome.Pass? {
      forall d | d in dirs
        ensures d in r.tree
      {
        var i :| 0 <= i < |dirs| && dirs[i] == d;
      }
      forall k | k in files.Keys
        ensures k in r.tree
      {
        var i :| 0 <= i < |order| && order[i] == k;
      }
    }
  }

  /** A run stopped at its plan's first fault: every step before the last
      succeeded, and the last failed exactly when the run failed. */
  lemma StopsMeansOnlyLastFails(trace: seq<Step>, plan: seq<Step>, faults: Faults)
    requires StopsAtFirstFault(trace, plan, faults)
    ensures |trace| <= |plan| && trace == plan[..|trace|]
    ensures forall j :: 0 <= j < |trace| - 1 ==> faults(trace[j]).None?
    ensures FirstFault(plan, faults) < |plan| <==> |trace| > 0 && faults(trace[|trace| - 1]).Some?
  {
    FirstFaultIsFirst(plan, faults);
  }

  /** Position `j` of `DirSteps(dirs)` makes `dirs[j]`. */
  lemma {:induction false} DirStepsAt(dirs: seq<string>)
    ensures |DirSteps(dirs)| == |dirs|
    ensures forall j :: 0 <= j < |dirs| ==> DirSteps(dirs)[j] == Mkdir(dirs[j])
    decreases |dirs|
  {
    if |dirs| > 0 {
      DirStepsAt(dirs[1..]);
    }
  }

  /** The steps of `FilesSteps(order)` come in blocks of four, one block per
      file, in order. */
  lemma {:induction false} FilesStepsAt(order: seq<string>)
    ensures |FilesSteps(order)| == 4 * |order|
    ensures forall m, c :: 0 <= m < |order| && 0 <= c < 4 ==> FilesSteps(order)[4 * m + c] == FileSteps(order[m])[c]
    decreases |order|
  {
    if |order| > 0 {
      FilesStepsAt(order[1..]);
      var fs := FilesSteps(order);
      assert fs == FileSteps(order[0]) + FilesSteps(order[1..]);
      forall m, c | 0 <= m < |order| && 0 <= c < 4
        ensures fs[4 * m + c] == FileSteps(order[m])[c]
      {
        if m > 0 {
          assert 4 * m + c == 4 + (4 * (m - 1) + c);
          assert order[m] == order[1..][m - 1];
        }
      }
    }
  }

  /** A step that belongs to generating a file. */
  predicate IsFileStep(s: Step)
  {
    s.MkdirFor? || s.Parse? || s.Create? || s.Execute?
  }

  /** The steps of a scaffold plan with directories `dirs`. */
  function PlanOf(appName: string, dirs: seq<string>, order: seq<string>): seq<Step>
  {
    [MkdirProject(appName), Chdir(appName)] + (DirSteps(dirs) + FilesSteps(order))
  }

  /** The shape of a plan: make and enter the project directory, make the
      directories, then four steps per file. */
  lemma PlanAt(appName: string, dirs: seq<string>, order: seq<string>)
    ensures var plan := PlanOf(appName, dirs, order);
            && |plan| == 2 + |dirs| + 4 * |order|
            && plan[0] == MkdirProject(appName) && plan[1] == Chdir(appName)
            && (forall j :: 2 <= j < 2 + |dirs| ==> plan[j] == Mkdir(dirs[j - 2]))
            && (forall m, c :: 0 <= m < |order| && 0 <= c < 4 ==>
                  plan[2 + |dirs| + 4 * m + c] == FileSteps(order[m])[c])
  {
    DirStepsAt(dirs);
    FilesStepsAt(order);
    var plan := PlanOf(appName, dirs, order);
    forall m, c | 0 <= m < |order| && 0 <= c < 4
      ensures plan[2 + |dirs| + 4 * m + c] == FileSteps(order[m])[c]
    {
      assert plan[2 + |dirs| + 4 * m + c] == FilesSteps(order)[4 * m + c];
    }
  }

  /** What kind of step sits at each position of a plan. */
  lemma PlanKinds(appName: string, dirs: seq<string>, order: seq<string>, k: nat)
    requires k < |PlanOf(appName, dirs, order)|
    ensures PlanOf(appName, dirs, order)[k].Mkdir? <==> 2 <= k < 2 + |dirs|
    ensures IsFileStep(PlanOf(appName, dirs, order)[k]) <==> 2 + |dirs| <= k
  {
    PlanAt(appName, dirs, order);
    var plan := PlanOf(appName, dirs, order);
    var n := 2 + |dirs|;
    if 2 <= k < n {
      assert plan[k] == Mkdir(dirs[k - 2]);
    } else if n <= k {
      var m, c := (k - n) / 4, (k - n) % 4;
      assert k == n + 4 * m + c;
      assert plan[k] == FileSteps(order[m])[c];
    }
  }

  /** Directories come before every file step of a plan. */
  lemma PlanDirsFirst(appName: string, dirs: seq<string>, order: seq<string>, i: nat, j: nat)
    requires j < |PlanOf(appName, dirs, order)| && i < |PlanOf(appName, dirs, order)|
    requires PlanOf(appName, dirs, order)[i].Mkdir? && IsFileStep(PlanOf(appName, dirs, order)[j])
    ensures i < j
  {
    PlanKinds(appName, dirs, order, i);
    PlanKinds(appName, dirs, order, j);
  }

  /** A file's `Create` comes right after its directory and its template. */
  lemma PlanCreateAfterParse(appName: string, dirs: seq<string>, order: seq<string>, j: nat)
    requires j < |PlanOf(appName, dirs, order)| && PlanOf(appName, dirs, order)[j].Create?
    ensures var plan := PlanOf(appName, dirs, order);
            && j >= 2 && plan[j - 2] == MkdirFor(plan[j].file, Dir(plan[j].file))
            && plan[j - 1] == Parse(plan[j].file)
            && plan[j].file in order
  {
    PlanAt(appName, dirs, order);
    var plan := PlanOf(appName, dirs, order);
    var n := 2 + |dirs|;
    PlanKinds(appName, dirs, order, j);
    var m, c := (j - n) / 4, (j - n) % 4;
    assert j == n + 4 * m + c;
    assert m < |order|;
    assert plan[j] == FileSteps(order[m])[c];
    assert c == 2;
    var file := order[m];
    assert plan[j].file == file;
    assert plan[2 + |dirs| + 4 * m + 0] == FileSteps(file)[0] == MkdirFor(file, Dir(file));
    assert plan[2 + |dirs| + 4 * m + 1] == FileSteps(file)[1] == Parse(file);
  }

  /** The order a sequence of steps keeps: directories are all made before
      any file is touched, and a file is created only right after its
      directory is made and its template parsed. */
  ghost predicate OrderedSteps(s: seq<Step>)
  {
    && (forall i, j :: 0 <= i < |s| && 0 <= j < |s| && s[i].Mkdir? && IsFileStep(s[j]) ==> i < j)
    && (forall j :: 0 <= j < |s| && s[j].Create? ==>
          j >= 2 && s[j - 2] == MkdirFor(s[j].file, Dir(s[j].file)) && s[j - 1] == Parse(s[j].file))
  }

  /** Every scaffold plan keeps that order. */
  lemma PlanIsOrdered(appName: string, dirs: seq<string>, order: seq<string>)
    ensures OrderedSteps(PlanOf(appName, dirs, order))
  {
    var plan := PlanOf(appName, dirs, order);
    forall i, j | 0 <= i < |plan| && 0 <= j < |plan| && plan[i].Mkdir? && IsFileStep(plan[j])
      ensures i < j
    {
      PlanDirsFirst(appName, dirs, order, i, j);
    }
    forall j | 0 <= j < |plan| && plan[j].Create?
      ensures j >= 2 && plan[j - 2] == MkdirFor(plan[j].file, Dir(plan[j].file))
      ensures plan[j - 1] == Parse(plan[j].file)
    {
      PlanCreateAfterParse(appName, dirs, order, j);
    }
  }

  /** A run of a scaffold is orderly: its steps keep the plan's order, every
      step but the last succeeded, and a template that fails to parse
      leaves its file uncreated. */
  ghost predicate OrderlyTrace(trace: seq<Step>, faults: Faults)
  {
    && OrderedSteps(trace)
    && (forall j :: 0 <= j < |trace| - 1 ==> faults(trace[j]).None?)
    && (forall file :: faults(Parse(file)).Some? ==> Create(file) !in trace)
  }

  /** A run that stops at the first fault of an ordered plan is orderly. */
  lemma StoppedOrderedIsOrderly(trace: seq<Step>, plan: seq<Step>, faults: Faults)
    requires OrderedSteps(plan) && StopsAtFirstFault(trace, plan, faults)
    ensures OrderlyTrace(trace, faults)
  {
    StopsMeansOnlyLastFails(trace, plan, faults);
    assert forall j :: 0 <= j < |trace| ==> trace[j] == plan[j];
    forall j | 0 <= j < |trace| && trace[j].Create?
      ensures faults(Parse(trace[j].file)).None?
    {
      assert trace[j - 1] == Parse(trace[j].file);
    }
  }

  /** Every prefix of a plan, cut at the plan's first fault, is orderly. */
  lemma StoppedPlanIsOrderly(trace: seq<Step>, appName: string, dirs: seq<string>, order: seq<string>, faults: Faults)
    requires StopsAtFirstFault(trace, PlanOf(appName, dirs, order), faults)
    ensures OrderlyTrace(trace, faults)
  {
    PlanIsOrdered(appName, dirs, order);
    StoppedOrderedIsOrderly(trace, PlanOf(appName, dirs, order), faults);
  }

  /** A plan creates exactly the files of `order`. */
  lemma PlanCreates(appName: string, dirs: seq<string>, order: seq<string>, f: string)
    ensures Create(f) in PlanOf(appName, dirs, order) <==> f in order
  {
    var plan := PlanOf(appName, dirs, order);
    if f in order {
      var m :| 0 <= m < |order| && order[m] == f;
      PlanAt(appName, dirs, order);
      assert plan[2 + |dirs| + 4 * m + 2] == FileSteps(f)[2];
    }
    if Create(f) in plan {
      var k :| 0 <= k < |plan| && plan[k] == Create(f);
      PlanCreateAfterParse(appName, dirs, order, k);
    }
  }

  /** A successful `CreateNewProject` creates exactly the nine files of its
      map. */
  lemma CreateNewProjectCreatesExactlyTheFiles(appName: string, t: Tree, faults: Faults, order: seq<string>, f: string)
    requires IsEnumeration(order, ProjectFiles.Keys)
    ensures var r := CreateNewProject(appName, t, faults, order);
            r.outcome.Pass? ==> (Create(f) in r.trace <==> f in ProjectFiles)
  {
    var r := CreateNewProject(appName, t, faults, order);
    if r.outcome.Pass? {
      PassedRunIsPlan(r.trace, Plan(appName, order), faults);
      PlanCreates(appName, ProjectDirs, order, f);
    }
  }

  /** The order of operations of `CreateNewProject`. */
  lemma CreateNewProjectOrder(appName: string, t: Tree, faults: Faults, order: seq<string>)
    requires IsEnumeration(order, ProjectFiles.Keys)
    ensures OrderlyTrace(CreateNewProject(appName, t, faults, order).trace, faults)
  {
    StoppedPlanIsOrderly(CreateNewProject(appName, t, faults, order).trace, appName, ProjectDirs, order, faults);
  }

  // ---------------------------------------------------------------------
  // What a scaffold contains
  // ---------------------------------------------------------------------

  /** The paths a step may change when it succeeds or fails. */
  function Touches(step: Step): set<string>
  {
    match step
    case MkdirFor(_, dir) => DirsOn(dir)
    case Create(file) => {file}
    case Execute(file) => {file}
    case _ => {}
  }

  /** A run of steps leaves alone every path none of its steps touches. */
  lemma {:induction false} RunFileStepsFrame(t: Tree, steps: seq<Step>, template: string, appName: string,
                                             faults: Faults, q: string)
    requires forall i :: 0 <= i < |steps| ==> q !in Touches(steps[i])
    ensures var r := RunFileSteps(t, steps, template, appName, faults);
            (q in r.tree <==> q in t) && (q in t ==> r.tree[q] == t[q])
    decreases |steps|
  {
    if |steps| > 0 && faults(steps[0]).None? {
      assert forall i :: 0 <= i < |steps[1..]| ==> steps[1..][i] == steps[i + 1];
      RunFileStepsFrame(StepEffect(t, steps[0], template, appName), steps[1..], template, appName, faults, q);
    }
  }

  /** A run of steps that neither creates nor renders `q` leaves a
      directory at `q` a directory. */
  lemma {:induction false} RunFileStepsKeepsDir(t: Tree, steps: seq<Step>, template: string, appName: string,
                                                faults: Faults, q: string)
    requires forall i :: 0 <= i < |steps| ==> !(steps[i].Create? || steps[i].Execute?) || steps[i].file != q
    requires q in t && t[q] == Directory
    ensures var r := RunFileSteps(t, steps, template, appName, faults);
            q in r.tree && r.tree[q] == Directory
    decreases |steps|
  {
    if |steps| > 0 && faults(steps[0]).None? {
      assert forall i :: 0 <= i < |steps[1..]| ==> steps[1..][i] == steps[i + 1];
      RunFileStepsKeepsDir(StepEffect(t, steps[0], template, appName), steps[1..], template, appName, faults, q);
    }
  }

  /** `generateFile` changes only the file and the directories on the way
      to it, and leaves every directory other than the file a directory. */
  lemma GenerateFileFrame(t: Tree, file: string, template: string, appName: string, faults: Faults, q: string)
    requires q != file
    ensures var r := GenerateFile(t, file, template, appName, faults);
            && (q !in DirsOn(Dir(file)) ==> (q in r.tree <==> q in t) && (q in t ==> r.tree[q] == t[q]))
            && (q in t && t[q] == Directory ==> q in r.tree && r.tree[q] == Directory)
  {
    var steps := FileSteps(file);
    if q !in DirsOn(Dir(file)) {
      assert forall i :: 0 <= i < |steps| ==> Touches(steps[i]) <= DirsOn(Dir(file)) + {file};
      RunFileStepsFrame(t, steps, template, appName, faults, q);
    }
    if q in t && t[q] == Directory {
      RunFileStepsKeepsDir(t, steps, template, appName, faults, q);
    }
  }

  /** No file of `files` lies on the way to another: no key is a directory
      `MkdirAll` makes for a key. */
  ghost predicate Apart(files: map<string, string>)
  {
    forall f, g :: f in files && g in files ==> f !in DirsOn(Dir(g))
  }

  /** The file loop leaves alone every path that is neither one of its
      files nor on the way to one, and leaves directories other than its
      files directories. */
  lemma {:induction false} GenerateFilesFrame(t: Tree, order: seq<string>, files: map<string, string>,
                                              appName: string, faults: Faults, q: string)
    requires forall i :: 0 <= i < |order| ==> order[i] in files
    requires q !in order
    ensures var r := GenerateFiles(t, order, files, appName, faults);
            && ((forall i :: 0 <= i < |order| ==> q !in DirsOn(Dir(order[i]))) ==>
                  (q in r.tree <==> q in t) && (q in t ==> r.tree[q] == t[q]))
            && (q in t && t[q] == Directory ==> q in r.tree && r.tree[q] == Directory)
    decreases |order|
  {
    if |order| > 0 {
      var file := order[0];
      var r0 := GenerateFile(t, file, files[file], appName, faults);
      GenerateFileFrame(t, file, files[file], appName, faults, q);
      if r0.outcome.Pass? {
        assert forall i :: 0 <= i < |order[1..]| ==> order[1..][i] == order[i + 1];
        GenerateFilesFrame(r0.tree, order[1..], files, appName, faults, q);
      }
    }
  }

  /** When the file loop passes, every file of `order` holds its template
      rendered for the application name. */
  lemma {:induction false} GenerateFilesContent(t: Tree, order: seq<string>, files: map<string, string>,
                                                appName: string, faults: Faults)
    requires forall i :: 0 <= i < |order| ==> order[i] in files
    requires Apart(files)
    ensures var r := GenerateFiles(t, order, files, appName, faults);
            r.outcome.Pass? ==>
              forall i :: 0 <= i < |order| ==>
                order[i] in r.tree && r.tree[order[i]] == File(Rendered(files[order[i]], appName))
    decreases |order|
  {
    var r := GenerateFiles(t, order, files, appName, faults);
    if |order| > 0 && r.outcome.Pass? {
      var file := order[0];
      var r0 := GenerateFile(t, file, files[file], appName, faults);
      var rest := order[1..];
      assert forall i :: 0 <= i < |rest| ==> rest[i] == order[i + 1];
      GenerateFilesContent(r0.tree, rest, files, appName, faults);
      if file !in rest {
        GenerateFilesFrame(r0.tree, rest, files, appName, faults, file);
      }
    }
  }

  /** When the directory and file loops pass, every directory of `dirs` is
      a directory and every file of `order` holds its template rendered for
      the application name. */
  lemma PopulateContent(t: Tree, faults: Faults, dirs: seq<string>, files: map<string, string>, appName: string,
                        order: seq<string>)
    requires forall i :: 0 <= i < |order| ==> order[i] in files
    requires forall i :: 0 <= i < |dirs| ==> dirs[i] != "." && dirs[i] != "" && dirs[i] !in order
    requires Apart(files)
    ensures var r := Populate(t, faults, dirs, files, appName, order);
            r.outcome.Pass? ==>
              && (forall i :: 0 <= i < |dirs| ==> dirs[i] in r.tree && r.tree[dirs[i]] == Directory)
              && (forall i :: 0 <= i < |order| ==>
                    order[i] in r.tree && r.tree[order[i]] == File(Rendered(files[order[i]], appName)))
  {
    var rd := MakeProjectDirs(t, dirs, faults);
    if rd.outcome.Pass? {
      GenerateFilesContent(rd.tree, order, files, appName, faults);
      forall i | 0 <= i < |dirs|
        ensures var rf := GenerateFiles(rd.tree, order, files, appName, faults);
                dirs[i] in rf.tree && rf.tree[dirs[i]] == Directory
      {
        GenerateFilesFrame(rd.tree, order, files, appName, faults, dirs[i]);
      }
    }
  }

  /** When a scaffold passes, every directory of `dirs` is a directory and
      every file holds its template rendered for the application name. */
  lemma ScaffoldContent(appName: string, t: Tree, faults: Faults, dirs: seq<string>, files: map<string, string>,
                        order: seq<string>)
    requires IsEnumeration(order, files.Keys)
    requires forall i :: 0 <= i < |dirs| ==> dirs[i] != "." && dirs[i] != "" && dirs[i] !in files
    requires Apart(files)
    ensures var r := ScaffoldRun(appName, t, faults, dirs, files, order);
            r.outcome.Pass? ==>
              && (forall d :: d in dirs ==> d in r.tree && r.tree[d] == Directory)
              && (forall f :: f in files ==> f in r.tree && r.tree[f] == File(Rendered(files[f], appName)))
  {
    var r := ScaffoldRun(appName, t, faults, dirs, files, order);
    if r.outcome.Pass? {
      PopulateContent(t, faults, dirs, files, appName, order);
      var rp := Populate(t, faults, dirs, files, appName, order);
      assert r.tree == rp.tree;
      forall d | d in dirs
        ensures d in r.tree && r.tree[d] == Directory
      {
        var i :| 0 <= i < |dirs| && dirs[i] == d;
      }
      forall f | f in files
        ensures f in r.tree && r.tree[f] == File(Rendered(files[f], appName))
      {
        var i :| 0 <= i < |order| && order[i] == f;
      }
    }
  }

  /** The names of the generated files. */
  lemma ProjectFileNames()
    ensures ProjectFiles.Keys == {"main.go", "go.mod", "config/config.yaml", "routes/routes.go",
                                  "controllers/health_controller.go", "models/base.go",
                                  "internal/middleware/cors.go", ".gitignore", "README.md"}
  {
  }

  /** No directory on the way to a name without `/` is made. */
  lemma DirOfBare(f: string)
    requires '/' !in f
    ensures DirsOn(Dir(f)) == {}
  {
  }

  /** The directories on the way to `d/name` avoid every character `d`
      avoids. */
  lemma DirOfAvoids(f: string, d: string, name: string, ch: char)
    requires f == d + "/" + name && '/' !in name && ch !in d
    ensures forall q :: q in DirsOn(Dir(f)) ==> ch !in q
  {
    DirOf(d, name);
    forall q | q in DirsOn(d)
      ensures ch !in q
    {
      DirsOnAvoid(d, q, ch);
    }
  }

  /** A generated file's name has a `.`, and no directory on the way to it
      has one. */
  lemma ProjectFileDots(f: string)
    requires f in ProjectFiles
    ensures '.' in f
    ensures forall q :: q in DirsOn(Dir(f)) ==> '.' !in q
  {
    ProjectFileNames();
    if f in {"main.go", "go.mod", ".gitignore", "README.md"} {
      BareFileDots(f);
    } else {
      NestedFileDots(f);
    }
  }

  lemma BareFileDots(f: string)
    requires f in {"main.go", "go.mod", ".gitignore", "README.md"}
    ensures '.' in f
    ensures DirsOn(Dir(f)) == {}
  {
    assert '/' !in f;
    DirOfBare(f);
  }

  /** The generated files that sit in a directory. */
  const NestedPaths: seq<string> := [
    "config/config.yaml", "routes/routes.go", "controllers/health_controller.go",
    "models/base.go", "internal/middleware/cors.go"]

  /** The same files, each as its directory and its name. */
  const NestedParts: seq<(string, string)> := [
    ("config", "config.yaml"), ("routes", "routes.go"), ("controllers", "health_controller.go"),
    ("models", "base.go"), ("internal/middleware", "cors.go")]

  /** Each nested file is its directory, a `/` and its name. */
  lemma NestedPartsJoin()
    ensures |NestedParts| == |NestedPaths| == 5
    ensures NestedPaths[0] == NestedParts[0].0 + "/" + NestedParts[0].1
    ensures NestedPaths[1] == NestedParts[1].0 + "/" + NestedParts[1].1
    ensures NestedPaths[2] == NestedParts[2].0 + "/" + NestedParts[2].1
    ensures NestedPaths[3] == NestedParts[3].0 + "/" + NestedParts[3].1
    ensures NestedPaths[4] == NestedParts[4].0 + "/" + NestedParts[4].1
  {
  }

  /** Each nested file's name has a `.` and no `/`; its directory has no `.`. */
  lemma NestedPartsDots()
    ensures forall i :: 0 <= i < |NestedParts| ==>
              '/' !in NestedParts[i].1 && '.' in NestedParts[i].1 && '.' !in NestedParts[i].0
  {
  }

  lemma NestedFileDots(f: string)
    requires f in NestedPaths
    ensures '.' in f
    ensures forall q :: q in DirsOn(Dir(f)) ==> '.' !in q
  {
    NestedPartsJoin();
    NestedPartsDots();
    var i :| 0 <= i < |NestedPaths| && NestedPaths[i] == f;
    var (d, name) := NestedParts[i];
    assert f == d + "/" + name;
    assert '.' in f by {
      var k :| 0 <= k < |name| && name[k] == '.';
      assert f[|d| + 1 + k] == '.';
    }
    DirOfAvoids(f, d, name, '.');
  }

  /** No generated file is in the way of another, nor of a project
      directory: file names have a `.`, directories have none. */
  lemma ProjectFilesApart()
    ensures Apart(ProjectFiles)
    ensures forall i :: 0 <= i < |ProjectDirs| ==> ProjectDirs[i] !in ProjectFiles
  {
    forall f, g | f in ProjectFiles && g in ProjectFiles
      ensures f !in DirsOn(Dir(g))
    {
      ProjectFileDots(f);
      ProjectFileDots(g);
    }
    forall i | 0 <= i < |ProjectDirs|
      ensures ProjectDirs[i] !in ProjectFiles
    {
      assert '.' !in ProjectDirs[i];
      if ProjectDirs[i] in ProjectFiles {
        ProjectFileDots(ProjectDirs[i]);
      }
    }
  }

  /** A successful `CreateNewProject` leaves the eleven directories as
      directories and the nine files each holding its template rendered for
      the application name. */
  lemma CreateNewProjectContent(appName: string, t: Tree, faults: Faults, order: seq<string>)
    requires IsEnumeration(order, ProjectFiles.Keys)
    ensures var r := CreateNewProject(appName, t, faults, order);
            r.outcome.Pass? ==>
              && (forall d :: d in ProjectDirs ==> d in r.tree && r.tree[d] == Directory)
              && (forall f :: f in ProjectFiles ==> f in r.tree && r.tree[f] == File(Rendered(ProjectFiles[f], appName)))
  {
    ProjectDirsNamed();
    ProjectFilesApart();
    ScaffoldContent(appName, t, faults, ProjectDirs, ProjectFiles, order);
  }

  // ---------------------------------------------------------------------
  // Solver hints: single identities on plans and traces, each with an empty
  // proof, that the proofs above instantiate at the terms they need.
  // ---------------------------------------------------------------------

  /** The trace of a plan whose first fault is at `k`. */
  lemma StopsAt(trace: seq<Step>, plan: seq<Step>, k: nat, faults: Faults)
    requires FirstFault(plan, faults) == k
    ensures StopsAtFirstFault(trace, plan, faults) <==> trace == if k < |plan| then plan[..k + 1] else plan
  {
  }

  /** The outcome of a plan whose first fault is at `k`. */
  lemma OutcomeAt(plan: seq<Step>, k: nat, faults: Faults)
    requires FirstFault(plan, faults) == k
    ensures ProjectOutcome(plan, faults) == if k < |plan| then Fail(ProjectError(plan[k], faults(plan[k]).value)) else Pass
  {
  }

  /** A run that passes attempted every step of its plan. */
  lemma PassedRunIsPlan(trace: seq<Step>, plan: seq<Step>, faults: Faults)
    requires StopsAtFirstFault(trace, plan, faults) && ProjectOutcome(plan, faults).Pass?
    ensures trace == plan
  {
  }

  lemma ConsPrefix(steps: seq<Step>, n: nat)
    requires 0 < n <= |steps|
    ensures steps[..n] == [steps[0]] + steps[1..][..n - 1]
    ensures n >= 2 ==> steps[n - 1] == steps[1..][n - 2]
  {
  }

  lemma PrefixOfAppend(a: seq<Step>, b: seq<Step>, n: nat)
    requires n <= |a|
    ensures (a + b)[..n] == a[..n]
  {
  }

  lemma PrefixPastAppend(a: seq<Step>, b: seq<Step>, n: nat)
    requires n <= |b|
    ensures (a + b)[..|a| + n] == a + b[..n]
  {
  }

  lemma StepAt(a: seq<Step>, b: seq<Step>, i: nat)
    requires i < |a|
    ensures (a + b)[i] == a[i]
  {
  }

  lemma StepPast(a: seq<Step>, b: seq<Step>, i: nat)
    requires i < |b|
    ensures (a + b)[|a| + i] == b[i]
  {
  }
}
