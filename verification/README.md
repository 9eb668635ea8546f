# ThreadBolt core, modelled in Dafny

ThreadBolt is a Go web framework with a command-line scaffolder. This project
models the parts of it that decide what happens, as pure functions over
immutable data, and proves what they promise:

- **The service container** (`pkg/di/container.go`): a name → service
  registry. Registration is last-writer-wins, lookup reports a not-found
  error, typed retrieval fills an interface slot, and tag-driven injection
  fills the fields of a struct in declaration order. Go reflection is
  replaced by a `Target` datatype: a non-pointer, a nil pointer, a pointer
  to an interface slot, a pointer to a struct (a sequence of fields, each
  with tags, a settable flag, a static type and a value), or a pointer to
  anything else.
- **ORM set-up** (`pkg/orm/orm.go`):
  - the choice of dialect by `database.driver`;
  - the PostgreSQL and MySQL connection strings and the SQLite file name;
  - the log level chosen by `environment`;
  - the short-circuit of `RunMigrations` when there are no model files;
  - the `.sql` filter of the custom migrations.

  Each connection string is paired with a parser, so the model can state
  what is read back from it:
  - for PostgreSQL, the keyword/value rules libpq documents in section
    34.1.1.1 of the PostgreSQL manual, "Keyword/Value Connection Strings"
    (the Go driver's own parser is not modelled);
  - for MySQL, go-sql-driver's reading of a data source name as version
    1.8 does it: the splitting, `url.PathUnescape` of the database name, and
    the normalizing of the address.

  The dialect handed to the connection carries the unquoted PostgreSQL
  string the source builds. The quoted string that corrects it (see
  Findings) is a separate member, `Orm.SelectDialectorQuoted`.
- **Application start-up** (`pkg/framework/app.go`): `validateProjectStructure`
  checks ten directories, then four files, and reports the first missing
  one. `LoadApp` runs its steps in order, then registers the database under
  `"db"`. The steps are: validate, load the configuration, open the
  database.
- **Scaffolding** (`pkg/generator/project.go`): `CreateNewProject` makes and
  enters the project directory and makes eleven directories. It then
  renders nine files in the map's iteration order, each through
  `generateFile`. `generateFile` makes the directory, parses the template,
  creates the file and renders into it. The run stops at the first
  failure.

The file system is a map from clean relative paths to entries
(`FileSystem.Tree`). Every call that can fail becomes a `Generator.Step`,
and which steps fail is a parameter (`Generator.Faults`). A run records the
steps it attempted. Its reference is the `Plan` of every step in order, and
the lemmas relate each run to its plan.

Modules, one file each:
- `Errors`: Go error chains built with `%w`.
- `Text`: small string helpers.
- `DI`: the service container.
- `Dsn`: connection-string syntax.
- `Orm`: the ORM set-up.
- `FileSystem`: the path tree.
- `Generator`: the scaffolder.
- `Framework`: start-up.
- `Scaffold`: a property across the scaffolder and start-up, namely that a
  fresh project passes start-up validation.

Three behaviours of the code are easy to miss, and the model keeps them:
- `GetTyped` reports a missing name before it checks the shape of the
  target.
- Of the malformed targets, `Inject` returns an error only for a
  non-pointer (an unbound key is the other error it returns). A pointer
  to a non-struct, and a field whose type cannot hold the service, make Go
  panic. The model treats these as preconditions, not as error results.
- A tagged field that cannot be set is skipped, but its key must still be
  bound.

## Model

| member | source | states |
|---|---|---|
| DI.NewContainer | pkg/di/container.go:14-18 | a fresh container has no bindings: `Get` of every name fails with the not-found error naming it |
| DI.Register | pkg/di/container.go:20-24 | registration cannot fail; afterwards `Get(name)` returns exactly the registered service and every other name is looked up as before |
| DI.RegisterOverwrites | pkg/di/container.go:20-24 | a second registration under the same name silently replaces the first; the result equals registering only the second |
| DI.Get | pkg/di/container.go:26-36 | lookup succeeds exactly for bound names, returning the bound service; otherwise the error is `service '<name>' not found` |
| DI.GetTyped | pkg/di/container.go:38-51 | a missing name is reported (target untouched) before the target's shape is checked; a target that is not a pointer to an interface is rejected and left untouched; it succeeds exactly when the name is bound and the target is an interface slot, which then holds the bound service |
| DI.InjectFrom | pkg/di/container.go:60-75 | the field loop: fields before the first tagged field with an unbound key are filled, that field and all later ones are untouched, and the outcome names that field's key or is success when there is none |
| DI.Inject | pkg/di/container.go:53-78 | a non-pointer is rejected; for a struct the field count is kept, injection succeeds iff no tagged field has an unbound key, and on failure the error wraps the not-found error of the first such key in declaration order, fields before it stay filled and fields from it on are unchanged |
| DI.InjectSuccessBindsTaggedFields | pkg/di/container.go:64-74 | after a successful injection every tagged key is bound, every settable tagged field holds exactly the service registered under its tag, and untagged or unsettable fields are unchanged |
| DI.InjectFailureUnwrapsToNotFound | pkg/di/container.go:65-68 | the error of a failed injection is a `failed to inject <key>` wrapper whose chain contains, and whose root is, the not-found error of that key; it prints as `failed to inject <key>: service '<key>' not found` |
| DI.InjectRejectsNonPointerBeforeLookup | pkg/di/container.go:54-57 | rejecting a non-pointer does not depend on the registry at all |
| DI.Perform | pkg/di/container.go:26-78 | `Get`, `GetTyped` and `Inject` leave the registry unchanged; only `Register` writes to it |
| DI.ReplayLastRegistrationWins | pkg/di/container.go:20-36 | over any history of calls, a lookup finds the service of the last registration of that name, or what the initial registry held if the history never registered it |
| DI.FreshReplayFindsOnlyRegistered | pkg/di/container.go:14-36 | starting from a fresh container, a name is found exactly when some call of the history registered it; otherwise the lookup fails with not-found |
| Dsn.BareRoundTrip | pkg/orm/orm.go:24-31 | settings written unquoted, `keyword=value` separated by blanks, are read back exactly under the libpq keyword/value rules when every value is non-empty and free of blanks, backslashes and a leading quote |
| Dsn.EmptyBareValueSwallowsNext | pkg/orm/orm.go:24-31 | an empty value written unquoted makes the parser take the following `keyword=value` as that value, so the following keyword is lost |
| Orm.PostgresDsnAsWritten | pkg/orm/orm.go:24-31 | the connection string is exactly `host=<host> user=<user> password=<password> dbname=<name> port=<port> sslmode=<sslmode>` with the six configured values inserted as they are, unquoted |
| Orm.PostgresDsnAsWrittenRoundTrip | pkg/orm/orm.go:23-32 | when all six configured values are plain, the unquoted connection string carries host, user, password, dbname, port and sslmode, in that order, to the driver |
| Orm.PostgresEmptyUserLosesPassword | pkg/orm/orm.go:24-31 | with an empty user name, the unquoted string is read as user `password=<password>` and has no password setting |
| Orm.PostgresDefaultsMisparse | pkg/orm/orm.go:24-31 | with driver `postgres` and every other setting at its default (so an empty user and password), the unquoted string is read as user `password=` with no password |
| Orm.PostgresDsn | pkg/orm/orm.go:23-32 | the corrected connection string is read back under the libpq keyword/value rules as exactly the six configured settings, in order, for every value |
| Orm.MySqlDsnRoundTrip | pkg/orm/orm.go:34-42 | the driver reads back user, password, `tcp`, `host:port`, database name and the fixed parameters, provided the user has no `:`, host and port have no `@`, `:` or bracket (which address normalizing would rewrite), and the name has no `/`, `?` or `%` (which unescaping would decode) |
| Orm.MySqlDsn | pkg/orm/orm.go:35-41 | the data source name built from the configured values is read back by the driver as user, password, `tcp`, `host:port`, database name and the fixed parameters, whenever the values are recoverable in the sense of `Orm.MySqlDsnRoundTrip` |
| Orm.MySqlColonHostRebracketed | pkg/orm/orm.go:34-42 | a host holding `:` (an IPv6 address, say) is not read back: the driver brackets the whole `host:port` and appends port 3306 |
| Orm.MySqlEscapedNameChanges | pkg/orm/orm.go:34-42 | a database name holding `%` is never read back as written: the driver rejects it or decodes it to a shorter name |
| Orm.SqliteFile | pkg/orm/orm.go:44-49 | the SQLite file is the configured database name, or `springgo.db` when that is empty, and is never empty |
| Orm.SelectDialector | pkg/orm/orm.go:22-53 | exactly `postgres`, `mysql` and `sqlite` are accepted, and any other driver gives `unsupported database driver: <driver>`; postgres gets the unquoted six-setting string, read back as the configured settings only when every value is plain; mysql gets the `user:password@tcp(host:port)/name?…` string, read back by the driver when the values are recoverable (no separator, no `:` or bracket in host and port, no `%` in the name); sqlite gets the SQLite file |
| Orm.SelectDialectorQuoted | pkg/orm/orm.go:22-53 | the corrected choice: identical for every driver but postgres, whose quoted string is read back as exactly the configured settings, whatever the values |
| Orm.LogLevelFor | pkg/orm/orm.go:58-63 | the level is Silent iff the environment is exactly `production`, and Info otherwise |
| Orm.Initialize | pkg/orm/orm.go:17-71 | an unsupported driver is returned unwrapped; otherwise the connection is opened with the chosen dialect (for postgres, the unquoted string the source formats) and log level, its success is returned as it is, and its failure is wrapped as `failed to connect to database` |
| Orm.UnsupportedDriverNeverConnects | pkg/orm/orm.go:51-53 | for an unsupported driver the result fails and is the same whatever the connection would do, so no connection is attempted |
| Orm.MigrationFiles | pkg/orm/orm.go:96-106 | the walk selects no more paths than it visits, and every selected path ends in `.sql` |
| Orm.MigrationFilesAppend | pkg/orm/orm.go:96-106 | the selection is compositional over the walk: the files of `a + b` are those of `a` followed by those of `b`, so walk order is kept |
| Orm.MigrationFilesExactly | pkg/orm/orm.go:101-103 | a path is selected iff some walked entry with that path is a non-directory ending in `.sql` |
| Orm.RunCustomMigrations | pkg/orm/orm.go:93-119 | the walk fails iff it reports an error, and then the first error is returned wrapped as `failed to read migration files`; otherwise the migrations are exactly the selected `.sql` files in walk order |
| Orm.RunMigrations | pkg/orm/orm.go:73-91 | a failed model-file search is wrapped as `failed to find model files`; with zero model files the result is success with nothing run; otherwise it fails iff the walk reports an error, returning the first one wrapped as `failed to read migration files`, and else runs the selected `.sql` files in walk order |
| FileSystem.MakeDirs | pkg/generator/project.go:72-75 | after `MkdirAll(p)` succeeds, `p` and each of its ancestors are directories and every other path is as before |
| FileSystem.MakeDirsIdempotent | pkg/generator/project.go:36-40 | making directories that already exist changes nothing |
| FileSystem.CreateFile | pkg/generator/project.go:82-85 | after `Create(p)` succeeds, `p` is an empty file and every other path is as before |
| FileSystem.Stat | pkg/framework/app.go:86 | stat reports the entry of an existing path, not-exist only for an absent path that can be examined, and another failure otherwise |
| Framework.CheckStructure | pkg/framework/app.go:85-102 | passes iff no listed directory and no listed file is missing; otherwise the first missing directory is reported, and only when all directories exist the first missing file |
| Framework.ValidateProjectStructure | pkg/framework/app.go:71-105 | passes iff none of the ten required directories and four required files is reported not-exist (an unreadable path does not count as missing); a failure is a plain message |
| Framework.ValidWhenPresent | pkg/framework/app.go:71-105 | a tree holding every required directory and file passes validation |
| Framework.MissingDirReportedFirst | pkg/framework/app.go:85-89 | the first missing directory in list order is the reported error, whatever files are missing too |
| Framework.MissingFileReportedFirst | pkg/framework/app.go:91-102 | with every directory present, the first missing file in list order is the reported error |
| Framework.LoadApp | pkg/framework/app.go:25-59 | each step's failure is returned wrapped with its own context (structure, then config, then database); the app loads iff all three succeed, and then holds the loaded configuration, the opened database, and a container in which `"db"` is that database |
| Framework.LoadedContainerHoldsOnlyDb | pkg/framework/app.go:31-51 | the container of a loaded app maps `"db"` to its database, and every other name is not found |
| Framework.ValidationComesFirst | pkg/framework/app.go:26-29 | an invalid structure gives the same result whatever the configuration loader and the database would do |
| Framework.ConfigComesBeforeDatabase | pkg/framework/app.go:36-47 | a configuration failure gives the same result whatever the database would do |
| Generator.GenerateFile | pkg/generator/project.go:70-93 | no path disappears, and when it succeeds the file holds its template rendered for the application name |
| Generator.GenerateFileSteps | pkg/generator/project.go:70-93 | `generateFile` attempts make-directory, parse, create and render in that order, stops at the first that fails, and returns that step's wrapped error |
| Generator.GenerateFileParseFault | pkg/generator/project.go:77-85 | a template that fails to parse is never followed by a create: the run adds at most the file's directories |
| Generator.MakeProjectDirs | pkg/generator/project.go:36-40 | the directory loop stops at the first failing directory with `failed to create directory <dir>`; it only adds directories; on success every listed directory is a directory |
| Generator.GenerateFiles | pkg/generator/project.go:61-65 | the file loop keeps every existing path and, when it succeeds, every file of the order exists |
| Generator.GenerateFilesFollowsPlan | pkg/generator/project.go:61-65 | the file loop attempts each file's four steps in order, stops at the first failure, and returns it wrapped as `failed to generate <file>` |
| Generator.CreateNewProject | pkg/generator/project.go:10-68 | for any iteration order of the file map, the run is the reference plan cut at its first failing step, and its error is that step's, wrapped as the source wraps it; no existing path disappears; a successful run leaves all eleven directories and all nine files in the project |
| Generator.CreateNewProjectOrder | pkg/generator/project.go:36-65 | in every run, all directories are made before any file step, each file is created right after its directory is made and its template parsed, only the last step may have failed, and a file whose template fails to parse is never created |
| Generator.CreateNewProjectCreatesExactlyTheFiles | pkg/generator/project.go:43-65 | a successful run creates a file iff it is one of the nine keys of the template map |
| Generator.CreateNewProjectContent | pkg/generator/project.go:43-65 | after a successful run the eleven paths are directories and each of the nine files holds its own template rendered with the given application name |
| Scaffold.RequiredAreScaffolded | pkg/framework/app.go:72-96 | every directory validation requires is one the scaffolder makes, and every file it requires is one the scaffolder generates |
| Scaffold.FreshProjectIsValid | pkg/framework/app.go:71-105 | a project freshly made by a successful `CreateNewProject` passes `validateProjectStructure`, even when some other paths cannot be examined |
| Scaffold.FreshProjectLoads | pkg/framework/app.go:26-29 | `LoadApp` in a freshly scaffolded project never fails with `invalid project structure` |

## Left out

- The container's `sync.RWMutex`: every operation is modelled as atomic and sequential. Locking is about concurrency, not about the registry's contents.
- Reflection panics are preconditions (`DI.GetTypedSafe`, `DI.InjectSafe`), not error results. They cover a nil or wrongly typed service set into a slot, and `Inject` on a pointer to a non-struct or a nil pointer.
- `gorm.Open`, the database connection and the gorm logger are outside the model. `Orm.Initialize` receives the connection as a function of the chosen dialect and log level.
- Configuration loading is outside the model: viper, godotenv, the defaults, environment precedence and file search. `Framework.LoadApp` receives what the loader returned. `Orm.Config` is the key → string view that `GetString` gives.
- Template text and rendering are not modelled. A template is a name standing for its text, and a rendered file records the template and the application name. A rendering that fails leaves a partial file.
- `GenerateModel` and `GenerateController` are not modelled. They only format a path and hand off to `generateFile`.
- The CLI commands, printing, the HTTP server (`Start`), the router and `loadRoutes` are not modelled. `loadRoutes` always returns nil, so its `failed to load routes` wrap cannot occur, and `LoadApp` has no routes step.
- `App.RunMigrations` only delegates to `orm.RunMigrations`, which is modelled as `Orm.RunMigrations`.
- `pkg/framework/version.go` is a constant getter and is not modelled.
- Real OS calls become parameters: `os.MkdirAll`, `os.Chdir`, `os.Create` and template parsing or execution can fail as `Generator.Faults` decides. `os.Stat` failures other than not-exist are the `unreadable` set. `filepath.Glob` is the `modelFiles` result. `filepath.WalkDir` is the sequence of visited entries and errors it reports.
- Generator.CreateNewProject: the tree is the project directory as seen after `os.Chdir`. The tree outside it, and `MkdirAll` of the project directory itself, are not modelled beyond their faults.
- Generator.FailEffect: a failing `os.MkdirAll` (the directory step of `generateFile`, and through `Generator.MakeProjectDirs` the standard-directory loop) is modelled as leaving the tree unchanged, although Go keeps the ancestors it made before the failure. The contracts that a run only adds paths and only adds directories still hold for that case; the model does not say which ancestors remain.
- Generator.MakeProjectDirs: `MkdirAll` over an existing regular file is modelled only as a fault the caller chooses, not derived from the tree.
- Orm.MySqlDsnRoundTrip: go-sql-driver is not part of the repository; its reading is modelled after version 1.8 (`parseDSN`, `url.PathUnescape` of the name, the protocol and address part of `normalize`). The parameters are compared as the raw string, not parsed, and earlier driver versions, which do not unescape the name, are not modelled.
- Orm.RunCustomMigrations: executing a migration is a no-op in the source. The model returns the list of files it would run.

## Findings

| source | as written | input that shows it | evidently intended | confidence | as-written member | corrected member |
|---|---|---|---|---|---|---|
| pkg/orm/orm.go:24-31 | the PostgreSQL connection string inserts every value unquoted (`user=%s password=%s …`) | `database.driver` set to `postgres`, with username and password left at their defaults `""` (pkg/config/config.go:53-54), or any password `p`; the string `host=localhost user= password= dbname=threadbolt_dev …` is read under the libpq keyword/value rules as user `password=` (or `password=p`) with no password setting | values quoted and escaped as section 34.1.1.1 of the PostgreSQL manual requires for empty values and values holding blanks, quotes or backslashes | not executed | Orm.PostgresDefaultsMisparse | Orm.PostgresDsn |
