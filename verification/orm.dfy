/**
 The pure part of the ORM set-up: choosing the database dialect and its
 connection string from the configuration, choosing the log level from the
 environment, and selecting the SQL migration files of a directory walk.

 Opening the connection is the caller-supplied `open` function; the model
 sees only what is handed to it and what it returns.
 */
module Orm {
  import opened Errors
  import opened Text
  import opened Dsn
  import DI

  /** The loaded configuration, as `GetString` sees it: key -> value. */
  type Config = map<string, string>

  /** `config.GetString(key)`: the empty string for an unset key. */
  function GetString(cfg: Config, key: string): string
  {
    if key in cfg then cfg[key] else ""
  }

  datatype Dialector = Postgres(dsn: string) | MySql(dsn: string) | Sqlite(dsn: string)

  datatype LogLevel = Silent | Info

  const DefaultSqliteFile := "springgo.db"

  /** The parameters appended to every MySQL data source name. */
  const MySqlParams := "charset=utf8mb4&parseTime=True&loc=Local"

  function Unsupported(driver: string): Error
  {
    Leaf("unsupported database driver: " + driver)
  }

  // ---------------------------------------------------------------------
  // PostgreSQL

  /** The six PostgreSQL settings, in the order the connection string lists them. */
  function PostgresSettingsOf(host: string, user: string, password: string, name: string, port: string,
                              sslmode: string): seq<Setting>
  {
    [("host", host), ("user", user), ("password", password), ("dbname", name), ("port", port), ("sslmode", sslmode)]
  }

  function PostgresSettings(cfg: Config): seq<Setting>
  {
    PostgresSettingsOf(GetString(cfg, "database.host"), GetString(cfg, "database.username"),
                       GetString(cfg, "database.password"), GetString(cfg, "database.name"),
                       GetString(cfg, "database.port"), GetString(cfg, "database.sslmode"))
  }

  lemma PostgresKeywordsPlain(host: string, user: string, password: string, name: string, port: string,
                              sslmode: string)
    ensures PlainKeywords(PostgresSettingsOf(host, user, password, name, port, sslmode))
  {
    var ps := PostgresSettingsOf(host, user, password, name, port, sslmode);
    forall i | 0 <= i < |ps|
      ensures PlainKeyword(ps[i].0)
    {
      var k := ps[i].0;
      assert k in {"host", "user", "password", "dbname", "port", "sslmode"};
    }
  }

  /** The connection string as the source formats it: `keyword=value` for
      each setting, one blank apart, every value inserted unquoted. */
  function PostgresDsnAsWritten(cfg: Config): (dsn: string)
    ensures dsn == "host=" + GetString(cfg, "database.host") + " user=" + GetString(cfg, "database.username")
                   + " password=" + GetString(cfg, "database.password") + " dbname=" + GetString(cfg, "database.name")
                   + " port=" + GetString(cfg, "database.port") + " sslmode=" + GetString(cfg, "database.sslmode")
  {
    PostgresFormat(GetString(cfg, "database.host"), GetString(cfg, "database.username"),
                   GetString(cfg, "database.password"), GetString(cfg, "database.name"),
                   GetString(cfg, "database.port"), GetString(cfg, "database.sslmode"));
    JoinBare(PostgresSettings(cfg))
  }

  /** Joining the six settings gives the source's format string filled in. */
  lemma PostgresFormat(host: string, user: string, password: string, name: string, port: string, sslmode: string)
    ensures JoinBare(PostgresSettingsOf(host, user, password, name, port, sslmode)) ==
            "host=" + host + " user=" + user + " password=" + password + " dbname=" + name
            + " port=" + port + " sslmode=" + sslmode
  {
    JoinSix("host", host, "user", user, "password", password, "dbname", name, "port", port, "sslmode", sslmode);
    assert "host" + "=" == "host=";
    Glue("host=" + host, "user", " user=");
    Glue("host=" + host + " user=" + user, "password", " password=");
    Glue("host=" + host + " user=" + user + " password=" + password, "dbname", " dbname=");
    Glue("host=" + host + " user=" + user + " password=" + password + " dbname=" + name, "port", " port=");
    Glue("host=" + host + " user=" + user + " password=" + password + " dbname=" + name + " port=" + port,
         "sslmode", " sslmode=");
  }

  /** Solver hint: a separating space, a key and its `=` written as one
      literal. */
  lemma Glue(x: string, k: string, kv: string)
    requires kv == " " + k + "="
    ensures x + " " + k + "=" == x + kv
  {
  }

  /** Six settings join into `k=v` pairs separated by single spaces. */
  lemma JoinSix(k1: string, v1: string, k2: string, v2: string, k3: string, v3: string,
                k4: string, v4: string, k5: string, v5: string, k6: string, v6: string)
    ensures JoinBare([(k1, v1), (k2, v2), (k3, v3), (k4, v4), (k5, v5), (k6, v6)]) ==
            k1 + "=" + v1 + " " + k2 + "=" + v2 + " " + k3 + "=" + v3 + " " + k4 + "=" + v4 + " "
            + k5 + "=" + v5 + " " + k6 + "=" + v6
  {
    var ps := [(k1, v1)];
    JoinSnocPair(ps, k2, v2);
    ps := ps + [(k2, v2)];
    JoinSnocPair(ps, k3, v3);
    ps := ps + [(k3, v3)];
    JoinSnocPair(ps, k4, v4);
    ps := ps + [(k4, v4)];
    JoinSnocPair(ps, k5, v5);
    ps := ps + [(k5, v5)];
    JoinSnocPair(ps, k6, v6);
    assert ps + [(k6, v6)] == [(k1, v1), (k2, v2), (k3, v3), (k4, v4), (k5, v5), (k6, v6)];
  }

  /** Every configured value survives being written unquoted. */
  predicate PostgresPlain(cfg: Config)
  {
    forall i :: 0 <= i < 6 ==> PlainValue(PostgresSettings(cfg)[i].1)
  }

  /** With every value non-empty and free of blanks, quotes and
      backslashes, the unquoted string does carry the six settings. */
  lemma PostgresDsnAsWrittenRoundTrip(cfg: Config)
    requires PostgresPlain(cfg)
    ensures ParseConninfo(PostgresDsnAsWritten(cfg)) == Some(PostgresSettings(cfg))
  {
    PostgresKeywordsPlain(GetString(cfg, "database.host"), GetString(cfg, "database.username"),
                          GetString(cfg, "database.password"), GetString(cfg, "database.name"),
                          GetString(cfg, "database.port"), GetString(cfg, "database.sslmode"));
    BareRoundTrip(PostgresSettings(cfg));
  }

  /** The source's defect: an empty user name (the configured default) makes
      the parser read `password=<password>` as the user name, and the
      password setting disappears. */
  lemma PostgresEmptyUserLosesPassword(host: string, password: string, name: string, port: string,
                                       sslmode: string)
    requires Unbroken(password)
    requires PlainValue(host) && PlainValue(name) && PlainValue(port) && PlainValue(sslmode)
    ensures ParseConninfo(JoinBare(PostgresSettingsOf(host, "", password, name, port, sslmode))) ==
            Some([("host", host), ("user", "password=" + password), ("dbname", name), ("port", port),
                  ("sslmode", sslmode)])
  {
    var ps := PostgresSettingsOf(host, "", password, name, port, sslmode);
    var rest := ps[3..];
    SplitAfterThird(ps);
    PostgresKeywordsPlain(host, "", password, name, port, sslmode);
    assert PlainKeyword(ps[1].0);
    EmptyValueAfterHead(ps[0], "user", ps[2], rest);
    assert "password" + "=" + password == "password=" + password by {
      assert "password" + "=" == "password=";
    }
    ConsTwo(ps[0], ("user", "password=" + password), rest);
  }

  /** The configuration defaults, except that `database.driver` (by default
      `sqlite`) is set to `postgres`. */
  const PostgresDefaults: Config := map[
    "database.driver" := "postgres",
    "database.host" := "localhost",
    "database.port" := "5432",
    "database.name" := "threadbolt_dev",
    "database.username" := "",
    "database.password" := "",
    "database.sslmode" := "disable"]

  /** The defect with the postgres driver selected and every other setting
      at its default: the connection string
      `host=localhost user= password= dbname=threadbolt_dev port=5432 sslmode=disable`
      names the user `password=` and has no password setting. */
  lemma PostgresDefaultsMisparse()
    ensures ParseConninfo(PostgresDsnAsWritten(PostgresDefaults)) ==
            Some([("host", "localhost"), ("user", "password="), ("dbname", "threadbolt_dev"),
                  ("port", "5432"), ("sslmode", "disable")])
  {
    PostgresDefaultSettings();
    PostgresEmptyUserLosesPassword("localhost", "", "threadbolt_dev", "5432", "disable");
    assert "password=" + "" == "password=";
  }

  /** The six settings the defaults give the postgres connection string. */
  lemma PostgresDefaultSettings()
    ensures PostgresSettings(PostgresDefaults) ==
            PostgresSettingsOf("localhost", "", "", "threadbolt_dev", "5432", "disable")
  {
  }

  /** The corrected connection string: every value quoted and escaped, so the
      parser reads back exactly the configured settings, whatever they are. */
  function PostgresDsn(cfg: Config): (dsn: string)
    ensures ParseConninfo(dsn) == Some(PostgresSettings(cfg))
  {
    PostgresKeywordsPlain(GetString(cfg, "database.host"), GetString(cfg, "database.username"),
                          GetString(cfg, "database.password"), GetString(cfg, "database.name"),
                          GetString(cfg, "database.port"), GetString(cfg, "database.sslmode"));
    QuotedRoundTrip(PostgresSettings(cfg));
    JoinQuoted(PostgresSettings(cfg))
  }

  // ---------------------------------------------------------------------
  // MySQL

  /** The data source name as the source formats it. */
  function MySqlDsnOf(user: string, password: string, host: string, port: string, name: string): string
  {
    user + ":" + password + "@tcp(" + host + ":" + port + ")/" + name + "?" + MySqlParams
  }

  /** The data source name built from a configuration: the driver reads
      back every configured value, provided the values avoid the separators
      it splits on. */
  function MySqlDsn(cfg: Config): (dsn: string)
    ensures MySqlRecoverable(cfg) ==>
              ParseMySql(dsn) ==
              Some(MySqlConfig(GetString(cfg, "database.username"), GetString(cfg, "database.password"), "tcp",
                               GetString(cfg, "database.host") + ":" + GetString(cfg, "database.port"),
                               GetString(cfg, "database.name"), MySqlParams))
  {
    MySqlDsnReadsBack(GetString(cfg, "database.username"), GetString(cfg, "database.password"),
                      GetString(cfg, "database.host"), GetString(cfg, "database.port"), GetString(cfg, "database.name"));
    MySqlDsnOf(GetString(cfg, "database.username"), GetString(cfg, "database.password"),
               GetString(cfg, "database.host"), GetString(cfg, "database.port"), GetString(cfg, "database.name"))
  }

  /** The values the driver reads back unchanged from the unquoted format:
      a user name without `:`; a host and a port without `@`, `:` or a
      bracket, which `normalize` would rewrite; a database name without `/`
      or `?`, where the splitting would cut it, and without `%`, which
      `url.PathUnescape` would decode. Passwords are unrestricted. */
  predicate MySqlValuesRecoverable(user: string, host: string, port: string, name: string)
  {
    && ':' !in user
    && '@' !in host && PlainHostPart(host)
    && '@' !in port && PlainHostPart(port)
    && '/' !in name && '?' !in name && '%' !in name
  }

  predicate MySqlRecoverable(cfg: Config)
  {
    MySqlValuesRecoverable(GetString(cfg, "database.username"), GetString(cfg, "database.host"),
                           GetString(cfg, "database.port"), GetString(cfg, "database.name"))
  }

  /** The read-back, whenever the values are recoverable. */
  lemma MySqlDsnReadsBack(user: string, password: string, host: string, port: string, name: string)
    ensures MySqlValuesRecoverable(user, host, port, name) ==>
              ParseMySql(MySqlDsnOf(user, password, host, port, name)) ==
              Some(MySqlConfig(user, password, "tcp", host + ":" + port, name, MySqlParams))
  {
    if MySqlValuesRecoverable(user, host, port, name) {
      MySqlDsnRoundTrip(user, password, host, port, name);
    }
  }

  lemma MySqlDsnShape(user: string, password: string, host: string, port: string, name: string)
    ensures MySqlDsnOf(user, password, host, port, name) ==
            (user + ":" + password + "@" + ("tcp(" + (host + ":" + port) + ")")) + ['/'] + (name + "?" + MySqlParams)
  {
  }

  /** The splitting step cuts the data source name back into the values,
      provided they avoid the separators it splits on. */
  lemma MySqlDsnSplits(user: string, password: string, host: string, port: string, name: string)
    requires ':' !in user && '@' !in host && '@' !in port && '/' !in name && '?' !in name
    ensures SplitMySql(MySqlDsnOf(user, password, host, port, name)) ==
            Some(MySqlConfig(user, password, "tcp", host + ":" + port, name, MySqlParams))
  {
    var addr := host + ":" + port;
    var net := "tcp(" + addr + ")";
    var left := user + ":" + password + "@" + net;
    var right := name + "?" + MySqlParams;
    var dsn := MySqlDsnOf(user, password, host, port, name);
    MySqlDsnShape(user, password, host, port, name);
    assert '/' !in right;
    LastIndexAt(left, '/', right);
    assert dsn[..|left|] == left;
    assert dsn[|left| + 1..] == right;
    assert '@' !in net;
    SplitUserInfoAt(user, password, net);
    SplitNetAddrTcp(addr);
    SplitDbNameAt(name, MySqlParams);
  }

  /** The driver reads back every value from the data source name, provided
      the values are recoverable. */
  lemma MySqlDsnRoundTrip(user: string, password: string, host: string, port: string, name: string)
    requires MySqlValuesRecoverable(user, host, port, name)
    ensures ParseMySql(MySqlDsnOf(user, password, host, port, name)) ==
            Some(MySqlConfig(user, password, "tcp", host + ":" + port, name, MySqlParams))
  {
    MySqlDsnSplits(user, password, host, port, name);
    PathUnescapePlain(name);
    SplitHostPortAt(host, port);
  }

  /** A host holding a `:`, such as an IPv6 address, is not read back: the
      driver brackets the whole address and appends the port 3306. */
  lemma MySqlColonHostRebracketed(user: string, password: string, host: string, port: string, name: string)
    requires ':' !in user && '@' !in host && '@' !in port && '/' !in name && '?' !in name && '%' !in name
    requires ':' in host && '[' !in host && ':' !in port
    ensures ParseMySql(MySqlDsnOf(user, password, host, port, name)) ==
            Some(MySqlConfig(user, password, "tcp", "[" + host + ":" + port + "]:3306", name, MySqlParams))
  {
    MySqlDsnSplits(user, password, host, port, name);
    PathUnescapePlain(name);
    ColonHostRebracketed(host, port);
  }

  /** A database name holding a `%` is never read back as it is: the driver
      either rejects it or decodes it to a shorter name. */
  lemma MySqlEscapedNameChanges(user: string, password: string, host: string, port: string, name: string)
    requires ':' !in user && '@' !in host && '@' !in port && '/' !in name && '?' !in name
    requires '%' in name
    ensures var r := ParseMySql(MySqlDsnOf(user, password, host, port, name));
            r.Some? ==> |r.value.dbname| < |name|
  {
    MySqlDsnSplits(user, password, host, port, name);
  }

  // ---------------------------------------------------------------------
  // Dialect, log level and connection

  /** The SQLite file: the configured database name, or the default file
      when none is configured. */
  function SqliteFile(cfg: Config): (file: string)
    ensures file != ""
    ensures GetString(cfg, "database.name") != "" ==> file == GetString(cfg, "database.name")
    ensures GetString(cfg, "database.name") == "" ==> file == DefaultSqliteFile
  {
    var name := GetString(cfg, "database.name");
    if name == "" then DefaultSqliteFile else name
  }

  /** The read-back of the unquoted PostgreSQL string built from a
      configuration, whenever its values are plain. */
  lemma PostgresDsnAsWrittenReadsBack(cfg: Config)
    ensures PostgresPlain(cfg) ==> ParseConninfo(PostgresDsnAsWritten(cfg)) == Some(PostgresSettings(cfg))
  {
    if PostgresPlain(cfg) {
      PostgresDsnAsWrittenRoundTrip(cfg);
    }
  }

  /** The dialect chosen by `database.driver`: exactly `postgres`, `mysql`
      and `sqlite` are supported, each with its own connection string; any
      other driver is an error naming it. The PostgreSQL string is the
      unquoted one the source formats, read back as the configured settings
      only when every value is plain. */
  function SelectDialector(cfg: Config): (r: Result<Dialector>)
    ensures r.Err? <==> GetString(cfg, "database.driver") !in {"postgres", "mysql", "sqlite"}
    ensures r.Err? ==> r.error == Unsupported(GetString(cfg, "database.driver"))
    ensures GetString(cfg, "database.driver") == "postgres" ==>
              && r == Ok(Postgres(PostgresDsnAsWritten(cfg)))
              && (PostgresPlain(cfg) ==> ParseConninfo(r.value.dsn) == Some(PostgresSettings(cfg)))
    ensures GetString(cfg, "database.driver") == "mysql" ==>
              && r == Ok(MySql(MySqlDsn(cfg)))
              && (MySqlRecoverable(cfg) ==>
                    ParseMySql(r.value.dsn) ==
                    Some(MySqlConfig(GetString(cfg, "database.username"), GetString(cfg, "database.password"), "tcp",
                                     GetString(cfg, "database.host") + ":" + GetString(cfg, "database.port"),
                                     GetString(cfg, "database.name"), MySqlParams)))
    ensures GetString(cfg, "database.driver") == "sqlite" ==> r == Ok(Sqlite(SqliteFile(cfg)))
  {
    match GetString(cfg, "database.driver")
    case "postgres" =>
      PostgresDsnAsWrittenReadsBack(cfg);
      Ok(Postgres(PostgresDsnAsWritten(cfg)))
    case "mysql" => Ok(MySql(MySqlDsn(cfg)))
    case "sqlite" => Ok(Sqlite(SqliteFile(cfg)))
    case driver => Err(Unsupported(driver))
  }

  /** The dialect with the corrected PostgreSQL string: the same choice as
      `SelectDialector`, except that every PostgreSQL value is quoted, so the
      driver reads back exactly the configured settings, whatever they are. */
  function SelectDialectorQuoted(cfg: Config): (r: Result<Dialector>)
    ensures GetString(cfg, "database.driver") != "postgres" ==> r == SelectDialector(cfg)
    ensures GetString(cfg, "database.driver") == "postgres" ==>
              r.Ok? && r.value.Postgres? && ParseConninfo(r.value.dsn) == Some(PostgresSettings(cfg))
  {
    if GetString(cfg, "database.driver") == "postgres" then Ok(Postgres(PostgresDsn(cfg)))
    else SelectDialector(cfg)
  }

  /** Silent logging exactly in the `production` environment. */
  function LogLevelFor(cfg: Config): (level: LogLevel)
    ensures level == Silent <==> GetString(cfg, "environment") == "production"
    ensures level == Info <==> GetString(cfg, "environment") != "production"
  {
    if GetString(cfg, "environment") == "production" then Silent else Info
  }

  /** `orm.Initialize`: an unsupported driver is reported as it is, before
      any connection is attempted; otherwise the connection is opened with
      the chosen dialect and log level, and a failure to connect is wrapped. */
  function Initialize(cfg: Config, open: (Dialector, LogLevel) -> Result<DI.Service>): (r: Result<DI.Service>)
    ensures SelectDialector(cfg).Err? ==> r == Err(Unsupported(GetString(cfg, "database.driver")))
    ensures SelectDialector(cfg).Ok? ==>
              (var attempt := open(SelectDialector(cfg).value, LogLevelFor(cfg));
               && (attempt.Ok? ==> r == attempt)
               && (attempt.Err? ==> r == Err(Wrapped("failed to connect to database", attempt.error))))
    ensures GetString(cfg, "database.driver") == "postgres" ==>
              (r.Ok? <==> open(Postgres(PostgresDsnAsWritten(cfg)), LogLevelFor(cfg)).Ok?)
  {
    match SelectDialector(cfg)
    case Err(e) => Err(e)
    case Ok(dialector) =>
      match open(dialector, LogLevelFor(cfg))
      case Err(e) => Err(Wrapped("failed to connect to database", e))
      case Ok(db) => Ok(db)
  }

  /** An unsupported driver never reaches the connection: the result does
      not depend on `open`. */
  lemma UnsupportedDriverNeverConnects(cfg: Config, open1: (Dialector, LogLevel) -> Result<DI.Service>,
                                       open2: (Dialector, LogLevel) -> Result<DI.Service>)
    requires GetString(cfg, "database.driver") !in {"postgres", "mysql", "sqlite"}
    ensures Initialize(cfg, open1) == Initialize(cfg, open2)
    ensures Initialize(cfg, open1).Err?
  {
  }

  // ---------------------------------------------------------------------
  // Migrations

  /** One step of `filepath.WalkDir`: a visited entry, or an error the walk
      reports for a path. */
  datatype WalkEntry = Visit(path: string, isDir: bool) | VisitError(path: string, error: Error)

  /** An entry the custom migrations run: a non-directory ending in `.sql`. */
  predicate IsMigrationFile(e: WalkEntry)
  {
    e.Visit? && !e.isDir && EndsWith(e.path, ".sql")
  }

  /** The paths of the migration files of a walk, in walk order. */
  function MigrationFiles(walk: seq<WalkEntry>): (files: seq<string>)
    ensures |files| <= |walk|
    ensures forall p :: p in files ==> EndsWith(p, ".sql")
    decreases |walk|
  {
    if |walk| == 0 then []
    else
      var last := walk[|walk| - 1];
      MigrationFiles(walk[..|walk| - 1]) + (if IsMigrationFile(last) then [last.path] else [])
  }

  /** The selection is compositional: the files of a walk are those of its
      first part followed by those of the rest, so walk order is kept. */
  lemma {:induction false} MigrationFilesAppend(a: seq<WalkEntry>, b: seq<WalkEntry>)
    ensures MigrationFiles(a + b) == MigrationFiles(a) + MigrationFiles(b)
    decreases |b|
  {
    if |b| == 0 {
      assert a + b == a;
    } else {
      var b', last := b[..|b| - 1], b[|b| - 1];
      var tail := if IsMigrationFile(last) then [last.path] else [];
      MigrationFilesAppend(a, b');
      assert (a + b)[..|a + b| - 1] == a + b';
      assert (a + b)[|a + b| - 1] == last;
      calc {
        MigrationFiles(a + b);
        MigrationFiles(a + b') + tail;
        (MigrationFiles(a) + MigrationFiles(b')) + tail;
        MigrationFiles(a) + (MigrationFiles(b') + tail);
        MigrationFiles(a) + MigrationFiles(b);
      }
    }
  }

  /** A path is selected exactly when some entry of the walk is a
      non-directory `.sql` file with that path. */
  lemma {:induction false} MigrationFilesExactly(walk: seq<WalkEntry>, path: string)
    ensures path in MigrationFiles(walk) <==>
            exists j :: 0 <= j < |walk| && IsMigrationFile(walk[j]) && walk[j].path == path
    decreases |walk|
  {
    if |walk| > 0 {
      var init := walk[..|walk| - 1];
      MigrationFilesExactly(init, path);
      if exists j :: 0 <= j < |init| && IsMigrationFile(init[j]) && init[j].path == path {
        var j :| 0 <= j < |init| && IsMigrationFile(init[j]) && init[j].path == path;
        assert walk[j] == init[j];
      }
      if exists j :: 0 <= j < |walk| && IsMigrationFile(walk[j]) && walk[j].path == path {
        var j :| 0 <= j < |walk| && IsMigrationFile(walk[j]) && walk[j].path == path;
        if j < |walk| - 1 {
          assert init[j] == walk[j];
        }
      }
    }
  }

  /** The index of the first error of a walk, or `|walk|` when there is none. */
  function FirstWalkError(walk: seq<WalkEntry>, i: nat): (k: nat)
    requires i <= |walk|
    ensures i <= k <= |walk|
    ensures forall j :: i <= j < k ==> walk[j].Visit?
    ensures k < |walk| ==> walk[k].VisitError?
    decreases |walk| - i
  {
    if i == |walk| || walk[i].VisitError? then i else FirstWalkError(walk, i + 1)
  }

  /** `runCustomMigrations`: the walk stops at its first error, which is
      returned wrapped; otherwise the migration files are run in walk order. */
  method RunCustomMigrations(walk: seq<WalkEntry>) returns (r: Result<seq<string>>)
    ensures r.Err? <==> FirstWalkError(walk, 0) < |walk|
    ensures r.Err? ==> r.error == Wrapped("failed to read migration files", walk[FirstWalkError(walk, 0)].error)
    ensures r.Ok? ==> r.value == MigrationFiles(walk)
  {
    var files: seq<string> := [];
    var i := 0;
    while i < |walk|
      invariant 0 <= i <= |walk|
      invariant forall j :: 0 <= j < i ==> walk[j].Visit?
      invariant files == MigrationFiles(walk[..i])
    {
      var entry := walk[i];
      if entry.VisitError? {
        return Err(Wrapped("failed to read migration files", entry.error));
      }
      assert walk[..i + 1][..i] == walk[..i];
      if !entry.isDir && EndsWith(entry.path, ".sql") {
        files := files + [entry.path];
      }
      i := i + 1;
    }
    assert walk[..i] == walk;
    return Ok(files);
  }

  /** `RunMigrations`: a failed model-file search is wrapped; with no model
      files nothing else happens; otherwise the custom migrations run. */
  method RunMigrations(modelFiles: Result<seq<string>>, walk: seq<WalkEntry>) returns (r: Result<seq<string>>)
    ensures modelFiles.Err? ==> r == Err(Wrapped("failed to find model files", modelFiles.error))
    ensures modelFiles == Ok([]) ==> r == Ok([])
    ensures modelFiles.Ok? && |modelFiles.value| > 0 ==>
              && (r.Err? <==> FirstWalkError(walk, 0) < |walk|)
              && (r.Err? ==> r.error == Wrapped("failed to read migration files", walk[FirstWalkError(walk, 0)].error))
              && (r.Ok? ==> r.value == MigrationFiles(walk))
  {
    if modelFiles.Err? {
      return Err(Wrapped("failed to find model files", modelFiles.error));
    }
    if |modelFiles.value| == 0 {
      return Ok([]);
    }
    r := RunCustomMigrations(walk);
  }
}
