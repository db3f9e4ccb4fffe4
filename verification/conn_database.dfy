/** `conn_database.py`: the MySQL settings of the ingestion job, from config.ini with environment overrides. */
module ConnDatabase {
  import opened Wrappers
  import opened Text
  import opened Settings

  /** The spellings `parse_bool` reads as true, after trimming and lower-casing. */
  predicate IsTrueWord(w: string) {
    w == "1" || w == "true" || w == "yes" || w == "y" || w == "on"
  }

  /**
   * `parse_bool(val, default)`: a missing value gives `default`; any present
   * value is true exactly when, trimmed and lower-cased, it is one of the true words,
   * so the default plays no part once a value is present.
   */
  function ParseBool(val: Option<string>, default: bool): (b: bool)
    ensures val.None? ==> b == default
    ensures val.Some? ==> (b <==> IsTrueWord(Lower(Trim(val.value))))
  {
    match val
    case None => default
    case Some(s) => IsTrueWord(Lower(Trim(s)))
  }

  /**
   * Whitespace around the value, the case of its letters and the default make
   * no difference once a value is present.
   */
  lemma ParseBoolNormalises(p: string, s: string, q: string, d: bool, e: bool)
    requires AllIn(p, IsSpace) && AllIn(q, IsSpace)
    ensures ParseBool(Some(p + s + q), d) == ParseBool(Some(Lower(s)), e)
  {
    StripPadding(p, s, q, IsSpace);
    LowerTrimCommute(s);
    LowerIdempotent(Trim(s));
  }

  /** `" TRUE "` reads as true, whatever the default. */
  lemma PaddedTrueIsTrue(d: bool)
    ensures ParseBool(Some(" TRUE "), d)
  {
    OneSpaceEachSide("TRUE");
    assert " " + "TRUE" + " " == " TRUE ";
    LowerTrue();
  }

  /** A word with no whitespace at its ends, padded by one space on each side, trims back to itself. */
  lemma OneSpaceEachSide(w: string)
    requires w == [] || (!IsSpace(w[0]) && !IsSpace(w[|w| - 1]))
    ensures Trim(" " + w + " ") == w
  {
    StripPadding(" ", w, " ", IsSpace);
    StripUnchanged(w, IsSpace);
  }

  lemma LowerTrue()
    ensures Lower("TRUE") == "true"
  {
    var l := Lower("TRUE");
    assert l[0] == 't' && l[1] == 'r' && l[2] == 'u' && l[3] == 'e';
  }

  /** An empty value reads as false even when the default is true. */
  lemma EmptyIsFalse()
    ensures !ParseBool(Some(""), true)
  {
    assert Trim("") == "";
    assert Lower("") == "";
  }

  /** `"` and `'`, the characters `load_db_config` strips from the host. */
  predicate IsQuote(c: char) {
    c == '"' || c == '\''
  }

  /** The host as `load_db_config` cleans it: whitespace trimmed first, then quote characters from both ends. */
  function CleanHost(raw: string): (h: string)
    ensures h == [] || (!IsQuote(h[0]) && !IsQuote(h[|h| - 1]))
    ensures |h| <= |raw|
  {
    Strip(Trim(raw), IsQuote)
  }

  /** Quotes around a host, and whitespace around those, are removed; the host inside is kept as written. */
  lemma CleanHostUnquotes(p: string, h: string, q: string, u: string, v: string)
    requires AllIn(p, IsSpace) && AllIn(q, IsSpace) && AllIn(u, IsQuote) && AllIn(v, IsQuote)
    requires h == [] || (!IsSpace(h[0]) && !IsSpace(h[|h| - 1]) && !IsQuote(h[0]) && !IsQuote(h[|h| - 1]))
    ensures CleanHost(p + (u + h + v) + q) == h
  {
    var w := u + h + v;
    assert w == [] || (!IsSpace(w[0]) && !IsSpace(w[|w| - 1]));
    StripPadding(p, w, q, IsSpace);
    StripUnchanged(w, IsSpace);
    StripPadding(u, h, v, IsQuote);
    StripUnchanged(h, IsQuote);
  }

  /** The keyword arguments `load_db_config` builds for `mysql.connector.connect`. */
  datatype ConnectArgs = ConnectArgs(
    host: string,
    port: int,
    user: Option<string>,
    password: Option<string>,
    database: Option<string>,
    charset: string,
    connectTimeout: int,
    autocommit: bool)

  /** The port text `load_db_config` hands to `int`: DB_PORT, else the file's port, else "3306". */
  function PortText(env: Env, cfg: Section): string {
    if "DB_PORT" in env then env["DB_PORT"] else LookupOr(cfg, "port", "3306")
  }

  /** `int(cfg.get("connect_timeout", 10))`. */
  function ConnectTimeout(cfg: Section): (t: Option<int>)
    ensures !HasOption(cfg, "connect_timeout") ==> t == Some(10)
    ensures HasOption(cfg, "connect_timeout") ==> t == ParseInt(LookupOr(cfg, "connect_timeout", ""))
  {
    match Lookup(cfg, "connect_timeout")
    case None => Some(10)
    case Some(t) => ParseInt(t)
  }

  /**
   * `load_db_config()`: environment variables take precedence over the
   * `[database]` section for host, port, user, password and database; the
   * other settings come from the file alone. It raises when the section is
   * missing or when the port or timeout is not an integer.
   */
  function LoadDbConfig(env: Env, file: ConfigFile): (r: Result<ConnectArgs, ConfigError>)
    ensures "database" !in file ==> r == Err(MissingSection("database"))
    ensures "database" in file ==>
      var cfg := file["database"];
      && (r.Ok? <==> ParseInt(PortText(env, cfg)).Some? && ConnectTimeout(cfg).Some?)
      && (r.Ok? ==>
        var c := r.value;
        && c.host == CleanHost(if "DB_HOST" in env then env["DB_HOST"] else LookupOr(cfg, "host", ""))
        && Some(c.port) == ParseInt(PortText(env, cfg))
        && c.user == (if "DB_USER" in env then Some(env["DB_USER"]) else Lookup(cfg, "user"))
        && c.password == (if "DB_PASSWORD" in env then Some(env["DB_PASSWORD"]) else Lookup(cfg, "password"))
        && c.database == (if "DB_NAME" in env then Some(env["DB_NAME"]) else Lookup(cfg, "database"))
        && c.charset == LookupOr(cfg, "charset", "utf8mb4")
        && Some(c.connectTimeout) == ConnectTimeout(cfg)
        && (!HasOption(cfg, "connect_timeout") ==> c.connectTimeout == 10)
        && c.autocommit == ParseBool(Lookup(cfg, "autocommit"), true))
    ensures r.Ok? ==> r.value.host == [] || (!IsQuote(r.value.host[0]) && !IsQuote(r.value.host[|r.value.host| - 1]))
  {
    if "database" !in file then Err(MissingSection("database"))
    else
      var cfg := file["database"];
      var host := CleanHost(if "DB_HOST" in env then env["DB_HOST"] else LookupOr(cfg, "host", ""));
      match ParseInt(PortText(env, cfg))
      case None => Err(NotAnInteger(PortText(env, cfg)))
      case Some(port) =>
        match ConnectTimeout(cfg)
        case None => Err(NotAnInteger(LookupOr(cfg, "connect_timeout", "")))
        case Some(timeout) =>
          Ok(ConnectArgs(
            host,
            port,
            GetenvOr(env, "DB_USER", Lookup(cfg, "user")),
            GetenvOr(env, "DB_PASSWORD", Lookup(cfg, "password")),
            GetenvOr(env, "DB_NAME", Lookup(cfg, "database")),
            LookupOr(cfg, "charset", "utf8mb4"),
            timeout,
            ParseBool(Lookup(cfg, "autocommit"), true)))
  }

  /** The fallback port text reads as 3306. */
  lemma DefaultPortParses()
    ensures ParseInt("3306") == Some(3306)
  {
    assert NatToString(3306) == "3306";
    ParseIntRoundTrip(3306);
  }

  /**
   * With an empty environment and an empty `[database]` section the defaults
   * apply: port 3306, charset utf8mb4, a 10-second timeout and autocommit on.
   */
  lemma LoadDbConfigDefaults(file: ConfigFile)
    requires "database" in file && file["database"] == []
    ensures LoadDbConfig(map[], file) == Ok(ConnectArgs("", 3306, None, None, None, "utf8mb4", 10, true))
  {
    DefaultPortParses();
    assert PortText(map[], file["database"]) == "3306";
    assert CleanHost("") == "" by {
      assert Trim("") == "";
    }
  }

  /** Whatever the file says, environment values for host, port, user, password and database win. */
  lemma LoadDbConfigEnvWins(env: Env, file: ConfigFile, port: nat)
    requires "database" in file && ConnectTimeout(file["database"]).Some?
    requires "DB_HOST" in env && "DB_USER" in env && "DB_PASSWORD" in env && "DB_NAME" in env
    requires "DB_PORT" in env && env["DB_PORT"] == NatToString(port)
    ensures LoadDbConfig(env, file).Ok?
    ensures var c := LoadDbConfig(env, file).value;
      && c.host == CleanHost(env["DB_HOST"])
      && c.port == port
      && c.user == Some(env["DB_USER"])
      && c.password == Some(env["DB_PASSWORD"])
      && c.database == Some(env["DB_NAME"])
  {
    ParseIntRoundTrip(port);
    assert PortText(env, file["database"]) == IntToString(port);
  }
}
