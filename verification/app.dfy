/**
 The application start-up of the framework: checking that the working
 directory looks like a project, then loading the configuration, opening
 the database and registering it in a fresh service container.

 The configuration loader and the database connection are outside the
 model: `LoadApp` receives what the loader returned and the connection
 function `Orm.Initialize` calls.
 */
module Framework {
  import opened Errors
  import opened FileSystem
  import DI
  import Orm

  /** The directories a project must have, in the order they are checked. */
  const RequiredDirs: seq<string> := [
    "controllers", "models", "config", "routes", "internal/middleware",
    "internal/services", "migrations", "templates", "public", "tests"]

  /** The files a project must have, in the order they are checked. */
  const RequiredFiles: seq<string> := ["main.go", "go.mod", "config/config.yaml", "routes/routes.go"]

  /** `os.IsNotExist(err)` for `os.Stat(p)`: only a path that is known to be
      absent counts as missing; one that cannot be examined does not. */
  predicate Missing(t: Tree, unreadable: set<string>, p: string)
  {
    Stat(t, unreadable, p).NotExist?
  }

  /** The position of the first missing path of `paths`, or its length. */
  function FirstMissing(t: Tree, unreadable: set<string>, paths: seq<string>): (k: nat)
    ensures k <= |paths|
    ensures forall j :: 0 <= j < k ==> !Missing(t, unreadable, paths[j])
    ensures k < |paths| ==> Missing(t, unreadable, paths[k])
  {
    if |paths| == 0 then 0
    else if Missing(t, unreadable, paths[0]) then 0
    else
      var k := FirstMissing(t, unreadable, paths[1..]);
      assert forall j :: 1 <= j < k + 1 ==> paths[j] == paths[1..][j - 1];
      k + 1
  }

  function MissingDir(dir: string): Error
  {
    Leaf("required directory '" + dir + "' is missing")
  }

  function MissingFile(file: string): Error
  {
    Leaf("required file '" + file + "' is missing")
  }

  /** The check of `validateProjectStructure` for any lists of directories
      and files: every directory, in order, then every file, in order; the
      first missing one is reported. */
  function CheckStructure(t: Tree, unreadable: set<string>, dirs: seq<string>, files: seq<string>): (r: Outcome)
    ensures r.Pass? <==>
              && (forall i :: 0 <= i < |dirs| ==> !Missing(t, unreadable, dirs[i]))
              && (forall i :: 0 <= i < |files| ==> !Missing(t, unreadable, files[i]))
    ensures forall i :: 0 <= i < |dirs| && Missing(t, unreadable, dirs[i]) &&
                        (forall j :: 0 <= j < i ==> !Missing(t, unreadable, dirs[j])) ==>
                          r == Fail(MissingDir(dirs[i]))
    ensures (forall i :: 0 <= i < |dirs| ==> !Missing(t, unreadable, dirs[i])) ==>
              forall i :: 0 <= i < |files| && Missing(t, unreadable, files[i]) &&
                          (forall j :: 0 <= j < i ==> !Missing(t, unreadable, files[j])) ==>
                            r == Fail(MissingFile(files[i]))
  {
    var kd := FirstMissing(t, unreadable, dirs);
    if kd < |dirs| then Fail(MissingDir(dirs[kd]))
    else
      var kf := FirstMissing(t, unreadable, files);
      if kf < |files| then Fail(MissingFile(files[kf]))
      else Pass
  }

  /** `validateProjectStructure()`, on the tree under the working directory. */
  function ValidateProjectStructure(t: Tree, unreadable: set<string>): (r: Outcome)
    ensures r.Pass? <==>
              && (forall d :: d in RequiredDirs ==> !Missing(t, unreadable, d))
              && (forall f :: f in RequiredFiles ==> !Missing(t, unreadable, f))
    ensures r.Fail? ==> r.error.Leaf?
  {
    CheckStructure(t, unreadable, RequiredDirs, RequiredFiles)
  }

  /** A tree that holds every required directory and file passes. */
  lemma ValidWhenPresent(t: Tree, unreadable: set<string>)
    requires forall d :: d in RequiredDirs ==> d in t
    requires forall f :: f in RequiredFiles ==> f in t
    ensures ValidateProjectStructure(t, unreadable).Pass?
  {
  }

  /** A missing directory is reported before any missing file: the first
      missing directory in list order, whatever files are missing too. */
  lemma MissingDirReportedFirst(t: Tree, unreadable: set<string>, i: nat)
    requires i < |RequiredDirs| && Missing(t, unreadable, RequiredDirs[i])
    requires forall j :: 0 <= j < i ==> !Missing(t, unreadable, RequiredDirs[j])
    ensures ValidateProjectStructure(t, unreadable) == Fail(MissingDir(RequiredDirs[i]))
  {
  }

  /** With every directory present, the first missing file in list order
      is reported. */
  lemma MissingFileReportedFirst(t: Tree, unreadable: set<string>, i: nat)
    requires forall d :: d in RequiredDirs ==> !Missing(t, unreadable, d)
    requires i < |RequiredFiles| && Missing(t, unreadable, RequiredFiles[i])
    requires forall j :: 0 <= j < i ==> !Missing(t, unreadable, RequiredFiles[j])
    ensures ValidateProjectStructure(t, unreadable) == Fail(MissingFile(RequiredFiles[i]))
  {
  }

  /** A running application: its configuration, its database handle and
      its service container. The router is not modelled. */
  datatype App = App(config: Orm.Config, db: DI.Service, container: DI.Container)

  /** What the configuration loader returned. */
  type Loaded = Result<Orm.Config>

  /** The connection `Orm.Initialize` makes. */
  type Open = (Orm.Dialector, Orm.LogLevel) -> Result<DI.Service>

  /** `LoadApp()`: validate the structure, load the configuration, open the
      database, register it as `"db"`, load the routes (which cannot fail);
      the first failing step's error is returned with its own context. */
  function LoadApp(t: Tree, unreadable: set<string>, loaded: Loaded, open: Open): (r: Result<App>)
    ensures ValidateProjectStructure(t, unreadable).Fail? ==>
              r == Err(Wrapped("invalid project structure", ValidateProjectStructure(t, unreadable).error))
    ensures ValidateProjectStructure(t, unreadable).Pass? && loaded.Err? ==>
              r == Err(Wrapped("failed to load config", loaded.error))
    ensures ValidateProjectStructure(t, unreadable).Pass? && loaded.Ok? &&
            Orm.Initialize(loaded.value, open).Err? ==>
              r == Err(Wrapped("failed to initialize database", Orm.Initialize(loaded.value, open).error))
    ensures r.Ok? <==>
              && ValidateProjectStructure(t, unreadable).Pass?
              && loaded.Ok?
              && Orm.Initialize(loaded.value, open).Ok?
    ensures r.Ok? ==>
              && r.value.config == loaded.value
              && r.value.db == Orm.Initialize(loaded.value, open).value
              && DI.Get(r.value.container, "db") == Ok(r.value.db)
  {
    match ValidateProjectStructure(t, unreadable)
    case Fail(e) => Err(Wrapped("invalid project structure", e))
    case Pass =>
      match loaded
      case Err(e) => Err(Wrapped("failed to load config", e))
      case Ok(cfg) =>
        match Orm.Initialize(cfg, open)
        case Err(e) => Err(Wrapped("failed to initialize database", e))
        case Ok(db) =>
          var container := DI.Register(DI.NewContainer(), "db", db);
          Ok(App(cfg, db, container))
  }

  /** The container of a loaded application holds the database and nothing
      else: every other name is not found. */
  lemma LoadedContainerHoldsOnlyDb(t: Tree, unreadable: set<string>, loaded: Loaded, open: Open, name: string)
    requires LoadApp(t, unreadable, loaded, open).Ok?
    ensures var app := LoadApp(t, unreadable, loaded, open).value;
            DI.Get(app.container, name) == if name == "db" then Ok(app.db) else Err(DI.NotFound(name))
  {
  }

  /** The structure is checked before anything else: a project that fails
      validation fails the same way whatever the loader returned and
      whatever the database would do, and never reaches either. */
  lemma ValidationComesFirst(t: Tree, unreadable: set<string>, loaded1: Loaded, loaded2: Loaded,
                             open1: Open, open2: Open)
    requires ValidateProjectStructure(t, unreadable).Fail?
    ensures LoadApp(t, unreadable, loaded1, open1) == LoadApp(t, unreadable, loaded2, open2)
  {
  }

  /** The configuration is loaded before the database is opened: a loader
      failure is reported the same way whatever the database would do. */
  lemma ConfigComesBeforeDatabase(t: Tree, unreadable: set<string>, loaded: Loaded, open1: Open, open2: Open)
    requires loaded.Err?
    ensures LoadApp(t, unreadable, loaded, open1) == LoadApp(t, unreadable, loaded, open2)
  {
  }
}
