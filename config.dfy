/**
 * Application configuration: a JSON file when it loads, built-in defaults
 * when it does not, then environment variables on top. The environment is
 * a map (an absent key reads as the empty string, as `os.Getenv` does),
 * the file read is a function from path to outcome, and `fmt.Sscanf`'s
 * integer scan is a function from text to an optional integer.
 */
module Config {
  import opened Wrappers

  datatype ServerConfig = ServerConfig(port: string, readTimeout: int, writeTimeout: int)
  datatype MongoDBConfig = MongoDBConfig(uri: string, database: string, certificatePath: string)
  datatype RedisConfig = RedisConfig(uri: string, addr: string, password: string, db: int)
  datatype SecurityConfig = SecurityConfig(jwtSecret: string)

  /** The value of an `AppConfig` at one moment. */
  datatype Settings = Settings(server: ServerConfig, mongoDB: MongoDBConfig, redis: RedisConfig, security: SecurityConfig)

  /** What reading the file gave: decoded settings, or an error after the decoder wrote what it had. */
  datatype FileOutcome = Decoded(settings: Settings) | Failed(partial: Settings, message: string)

  type Environment = map<string, string>

  /** Go's zero value of `AppConfig`. */
  function ZeroSettings(): Settings {
    Settings(ServerConfig("", 0, 0), MongoDBConfig("", "", ""), RedisConfig("", "", "", 0), SecurityConfig(""))
  }

  /** The values `setDefaults` writes: the zero value except for the port, the two timeouts and the database. */
  function DefaultSettings(): (d: Settings)
    ensures d == ZeroSettings().(server := ServerConfig("8080", 10, 10),
                                 mongoDB := ZeroSettings().mongoDB.(database := "balancelife"))
  {
    Settings(ServerConfig("8080", 10, 10), MongoDBConfig("", "balancelife", ""), RedisConfig("", "", "", 0),
             SecurityConfig(""))
  }

  /** `os.Getenv`: the empty string for an unset variable. */
  function Getenv(env: Environment, key: string): (v: string)
    ensures v == "" <==> key !in env || env[key] == ""
    ensures v != "" ==> v == env[key]
  {
    if key in env then env[key] else ""
  }

  const DefaultConfigPath: string := "config/app.config.json"

  /** `getConfigPath`: CONFIG_PATH when set and non-empty, else the default file. */
  function ConfigPath(env: Environment): (path: string)
    ensures path == DefaultConfigPath <==> Getenv(env, "CONFIG_PATH") == "" || Getenv(env, "CONFIG_PATH") == DefaultConfigPath
    ensures path != DefaultConfigPath ==> path == env["CONFIG_PATH"]
  {
    var custom := Getenv(env, "CONFIG_PATH");
    if custom != "" then custom else DefaultConfigPath
  }

  /** A text setting after its variable: the variable's value when non-empty, else unchanged. */
  function OverrideText(current: string, env: Environment, key: string): (r: string)
    ensures key in env && env[key] != "" ==> r == env[key]
    ensures key !in env || env[key] == "" ==> r == current
  {
    var v := Getenv(env, key);
    if v != "" then v else current
  }

  /** Redis.DB after REDIS_DB: the scanned integer when the value is non-empty and scans, else unchanged. */
  function OverrideDb(current: int, env: Environment, scan: string -> Option<int>): (r: int)
    ensures "REDIS_DB" in env && env["REDIS_DB"] != "" && scan(env["REDIS_DB"]).Some? ==> r == scan(env["REDIS_DB"]).value
    ensures "REDIS_DB" !in env || env["REDIS_DB"] == "" || scan(env["REDIS_DB"]).None? ==> r == current
  {
    var v := Getenv(env, "REDIS_DB");
    if v != "" && scan(v).Some? then scan(v).value else current
  }

  function ServerOverridden(c: ServerConfig, env: Environment): ServerConfig {
    c.(port := OverrideText(c.port, env, "SERVER_PORT"))
  }

  function MongoDBOverridden(c: MongoDBConfig, env: Environment): MongoDBConfig {
    MongoDBConfig(OverrideText(c.uri, env, "MONGODB_URI"),
                  OverrideText(c.database, env, "MONGODB_DATABASE"),
                  OverrideText(c.certificatePath, env, "MONGODB_CERT_PATH"))
  }

  function RedisOverridden(c: RedisConfig, env: Environment, scan: string -> Option<int>): RedisConfig {
    RedisConfig(OverrideText(c.uri, env, "REDIS_URI"),
                OverrideText(c.addr, env, "REDIS_ADDR"),
                OverrideText(c.password, env, "REDIS_PASSWORD"),
                OverrideDb(c.db, env, scan))
  }

  function SecurityOverridden(c: SecurityConfig, env: Environment): SecurityConfig {
    c.(jwtSecret := OverrideText(c.jwtSecret, env, "JWT_SECRET"))
  }

  /** The settings after `overrideWithEnv`; no variable touches the two timeouts. */
  function Overridden(s: Settings, env: Environment, scan: string -> Option<int>): (r: Settings)
    ensures r.server.readTimeout == s.server.readTimeout && r.server.writeTimeout == s.server.writeTimeout
  {
    Settings(ServerOverridden(s.server, env), MongoDBOverridden(s.mongoDB, env),
             RedisOverridden(s.redis, env, scan), SecurityOverridden(s.security, env))
  }

  /** The settings `GetConfig` ends with: the file's, or the defaults when it failed, then the environment. */
  function ResolvedSettings(env: Environment, load: string -> FileOutcome, scan: string -> Option<int>): (r: Settings)
    ensures load(ConfigPath(env)).Decoded? ==>
      r.server.readTimeout == load(ConfigPath(env)).settings.server.readTimeout
      && r.server.writeTimeout == load(ConfigPath(env)).settings.server.writeTimeout
    ensures load(ConfigPath(env)).Failed? ==> r.server.readTimeout == 10 && r.server.writeTimeout == 10
  {
    match load(ConfigPath(env))
    case Decoded(s) => Overridden(s, env, scan)
    case Failed(_, _) => Overridden(DefaultSettings(), env, scan)
  }

  /** An empty environment changes nothing. */
  lemma {:induction false} EmptyEnvironmentChangesNothing(s: Settings, scan: string -> Option<int>)
    ensures Overridden(s, map[], scan) == s
  {
  }

  /** Applying the environment twice is the same as applying it once. */
  lemma {:induction false} OverrideIdempotent(s: Settings, env: Environment, scan: string -> Option<int>)
    ensures Overridden(Overridden(s, env, scan), env, scan) == Overridden(s, env, scan)
  {
  }

  /** A setting differs from its starting value only when its variable is set to that new value. */
  lemma {:induction false} OverrideChangesOnlyFromVariables(s: Settings, env: Environment, scan: string -> Option<int>)
    ensures var r := Overridden(s, env, scan);
      && (r.server.port != s.server.port ==> r.server.port == env["SERVER_PORT"] != "")
      && (r.mongoDB.uri != s.mongoDB.uri ==> r.mongoDB.uri == env["MONGODB_URI"] != "")
      && (r.mongoDB.database != s.mongoDB.database ==> r.mongoDB.database == env["MONGODB_DATABASE"] != "")
      && (r.mongoDB.certificatePath != s.mongoDB.certificatePath ==>
            r.mongoDB.certificatePath == env["MONGODB_CERT_PATH"] != "")
      && (r.redis.uri != s.redis.uri ==> r.redis.uri == env["REDIS_URI"] != "")
      && (r.redis.addr != s.redis.addr ==> r.redis.addr == env["REDIS_ADDR"] != "")
      && (r.redis.password != s.redis.password ==> r.redis.password == env["REDIS_PASSWORD"] != "")
      && (r.redis.db != s.redis.db ==> "REDIS_DB" in env && Some(r.redis.db) == scan(env["REDIS_DB"]))
      && (r.security.jwtSecret != s.security.jwtSecret ==> r.security.jwtSecret == env["JWT_SECRET"] != "")
  {
  }

  /** A failed load ends in the same settings whatever the decoder had written before failing. */
  lemma {:induction false} FailedLoadIgnoresPartialDecode(env: Environment, load1: string -> FileOutcome,
                                                           load2: string -> FileOutcome, scan: string -> Option<int>)
    requires load1(ConfigPath(env)).Failed? && load2(ConfigPath(env)).Failed?
    ensures ResolvedSettings(env, load1, scan) == ResolvedSettings(env, load2, scan)
  {
  }

  /** The process-wide configuration object, whose fields the loader assigns in place. */
  class AppConfig {
    var server: ServerConfig
    var mongoDB: MongoDBConfig
    var redis: RedisConfig
    var security: SecurityConfig

    function Snapshot(): Settings
      reads this
    {
      Settings(server, mongoDB, redis, security)
    }

    /** `&AppConfig{}`. */
    constructor ()
      ensures Snapshot() == ZeroSettings()
    {
      server := ServerConfig("", 0, 0);
      mongoDB := MongoDBConfig("", "", "");
      redis := RedisConfig("", "", "", 0);
      security := SecurityConfig("");
    }

    /** What the JSON decoder leaves in the object. */
    method Decode(s: Settings)
      modifies this
      ensures Snapshot() == s
    {
      server, mongoDB, redis, security := s.server, s.mongoDB, s.redis, s.security;
    }

    /** `setDefaults`: every field is written, so nothing of the previous value survives. */
    method SetDefaults()
      modifies this
      ensures Snapshot() == DefaultSettings()
    {
      server := server.(port := "8080");
      server := server.(readTimeout := 10);
      server := server.(writeTimeout := 10);

      mongoDB := mongoDB.(uri := "");
      mongoDB := mongoDB.(database := "balancelife");
      mongoDB := mongoDB.(certificatePath := "");

      redis := redis.(uri := "");
      redis := redis.(addr := "");
      redis := redis.(password := "");
      redis := redis.(db := 0);

      security := security.(jwtSecret := "");
    }

    /** `overrideWithEnv`: each set, non-empty variable replaces its field, in the code's order. */
    method OverrideWithEnv(env: Environment, scan: string -> Option<int>)
      modifies this
      ensures Snapshot() == Overridden(old(Snapshot()), env, scan)
    {
      OverrideServer(env);
      OverrideMongoDB(env);
      OverrideRedis(env, scan);
      OverrideSecurity(env);
    }

    /** The server settings of `overrideWithEnv`. */
    method OverrideServer(env: Environment)
      modifies this
      ensures Snapshot() == old(Snapshot()).(server := ServerOverridden(old(server), env))
    {
      var val := Getenv(env, "SERVER_PORT");
      if val != "" {
        server := server.(port := val);
      }
    }

    /** The MongoDB settings of `overrideWithEnv`. */
    method OverrideMongoDB(env: Environment)
      modifies this
      ensures Snapshot() == old(Snapshot()).(mongoDB := MongoDBOverridden(old(mongoDB), env))
    {
      var val := Getenv(env, "MONGODB_URI");
      if val != "" {
        mongoDB := mongoDB.(uri := val);
      }
      val := Getenv(env, "MONGODB_DATABASE");
      if val != "" {
        mongoDB := mongoDB.(database := val);
      }
      val := Getenv(env, "MONGODB_CERT_PATH");
      if val != "" {
        mongoDB := mongoDB.(certificatePath := val);
      }
    }

    /** The Redis settings of `overrideWithEnv`; REDIS_DB applies only when it scans as an integer. */
    method OverrideRedis(env: Environment, scan: string -> Option<int>)
      modifies this
      ensures Snapshot() == old(Snapshot()).(redis := RedisOverridden(old(redis), env, scan))
    {
      var val := Getenv(env, "REDIS_URI");
      if val != "" {
        redis := redis.(uri := val);
      }
      val := Getenv(env, "REDIS_ADDR");
      if val != "" {
        redis := redis.(addr := val);
      }
      val := Getenv(env, "REDIS_PASSWORD");
      if val != "" {
        redis := redis.(password := val);
      }
      val := Getenv(env, "REDIS_DB");
      if val != "" {
        var db := scan(val);
        if db.Some? {
          redis := redis.(db := db.value);
        }
      }
    }

    /** The security settings of `overrideWithEnv`. */
    method OverrideSecurity(env: Environment)
      modifies this
      ensures Snapshot() == old(Snapshot()).(security := SecurityOverridden(old(security), env))
    {
      var val := Getenv(env, "JWT_SECRET");
      if val != "" {
        security := security.(jwtSecret := val);
      }
    }
  }

  /**
   * The body `GetConfig` runs once: load the file at the configured path,
   * fall back to the defaults when that fails, then apply the environment.
   * The load error is returned beside a usable configuration.
   */
  method LoadConfig(env: Environment, load: string -> FileOutcome, scan: string -> Option<int>)
    returns (cfg: AppConfig, err: Option<string>)
    ensures fresh(cfg)
    ensures cfg.Snapshot() == ResolvedSettings(env, load, scan)
    ensures err.Some? <==> load(ConfigPath(env)).Failed?
    ensures err.Some? ==> err.value == load(ConfigPath(env)).message
  {
    cfg := new AppConfig();
    var path := ConfigPath(env);
    var outcome := load(path);
    match outcome {
      case Decoded(s) =>
        cfg.Decode(s);
        err := None;
      case Failed(partial, message) =>
        cfg.Decode(partial);
        cfg.SetDefaults();
        err := Some(message);
    }
    cfg.OverrideWithEnv(env, scan);
  }

  /** The package-level singleton that `GetConfig` fills on its first call. */
  class ConfigOnce {
    var config: AppConfig?

    constructor ()
      ensures config == null
    {
      config := null;
    }

    /**
     * `GetConfig`: the first call loads and reports the load error; every
     * later call returns the same object and no error, whatever the
     * environment or the file say by then.
     */
    method GetConfig(env: Environment, load: string -> FileOutcome, scan: string -> Option<int>)
      returns (cfg: AppConfig, err: Option<string>)
      modifies this
      ensures config == cfg
      ensures old(config) != null ==> cfg == old(config) && err == None
      ensures old(config) == null ==> fresh(cfg) && cfg.Snapshot() == ResolvedSettings(env, load, scan)
      ensures old(config) == null ==> (err.Some? <==> load(ConfigPath(env)).Failed?)
    {
      if config == null {
        cfg, err := LoadConfig(env, load, scan);
        config := cfg;
      } else {
        cfg := config;
        err := None;
      }
    }
  }
}
