/**
 * `api/data_api.py`: the read-only HTTP API over the articles table. Modelled
 * here are its configuration (database settings, the category list, the API
 * key), the key check every endpoint depends on, the query shaping of
 * `/articles` (WHERE clauses, parameters, page offset) and the item list of
 * `/categories/counts`. This file reads config.ini with option names kept as
 * written, so a `Section` holds them exactly as in the file.
 *
 * The database is reached only through two oracles: `latest`, the answer of
 * `fetch_latest_date`, and `count`, the answer of `count_by_category`.
 */
module DataApi {
  import opened Wrappers
  import opened Text
  import opened Settings

  // ---------------------------------------------------------------------------
  // Configuration

  /** The keyword arguments `db_config` builds for `aiomysql.create_pool`. */
  datatype PoolArgs = PoolArgs(
    host: Option<string>,
    port: int,
    user: Option<string>,
    password: Option<string>,
    db: Option<string>,
    charset: string,
    autocommit: bool,
    poolRecycle: int)

  /** The port text `db_config` hands to `int`: DB_PORT, else the file's port, else "3306". */
  function PoolPortText(env: Env, cfg: Section): string {
    if "DB_PORT" in env then env["DB_PORT"] else LookupOr(cfg, "port", "3306")
  }

  /**
   * `Config.db_config()`: environment variables win over the `[database]`
   * section for host, port, user, password and database; autocommit is always
   * on and connections are recycled after 3600 seconds. It raises when the
   * section is missing or the port is not an integer.
   */
  function DbConfig(env: Env, file: ConfigFile): (r: Result<PoolArgs, ConfigError>)
    ensures "database" !in file ==> r == Err(MissingSection("database"))
    ensures "database" in file ==>
      (r.Ok? <==> ParseInt(PoolPortText(env, file["database"])).Some?)
    ensures r.Ok? ==> r.value.autocommit && r.value.poolRecycle == 3600
    ensures r.Ok? ==> var cfg := file["database"];
      && r.value.host == GetenvOr(env, "DB_HOST", Lookup(cfg, "host"))
      && Some(r.value.port) == ParseInt(PoolPortText(env, cfg))
      && r.value.user == GetenvOr(env, "DB_USER", Lookup(cfg, "user"))
      && r.value.password == GetenvOr(env, "DB_PASSWORD", Lookup(cfg, "password"))
      && r.value.db == GetenvOr(env, "DB_NAME", Lookup(cfg, "database"))
      && r.value.charset == LookupOr(cfg, "charset", "utf8mb4")
  {
    if "database" !in file then Err(MissingSection("database"))
    else
      var cfg := file["database"];
      match ParseInt(PoolPortText(env, cfg))
      case None => Err(NotAnInteger(PoolPortText(env, cfg)))
      case Some(port) =>
        Ok(PoolArgs(
          GetenvOr(env, "DB_HOST", Lookup(cfg, "host")),
          port,
          GetenvOr(env, "DB_USER", Lookup(cfg, "user")),
          GetenvOr(env, "DB_PASSWORD", Lookup(cfg, "password")),
          GetenvOr(env, "DB_NAME", Lookup(cfg, "database")),
          LookupOr(cfg, "charset", "utf8mb4"),
          true,
          3600))
  }

  /** Set environment variables win, even when set to "", and the host is taken as it is, quotes and all. */
  lemma DbConfigEnvWins(env: Env, file: ConfigFile, port: int)
    requires "database" in file
    requires "DB_HOST" in env && "DB_USER" in env && "DB_PASSWORD" in env && "DB_NAME" in env
    requires "DB_PORT" in env && env["DB_PORT"] == IntToString(port)
    ensures DbConfig(env, file) == Ok(PoolArgs(Some(env["DB_HOST"]), port, Some(env["DB_USER"]), Some(env["DB_PASSWORD"]),
                                               Some(env["DB_NAME"]), LookupOr(file["database"], "charset", "utf8mb4"), true, 3600))
  {
    ParseIntRoundTrip(port);
  }

  /** With no environment and an empty `[database]` section: port 3306, charset utf8mb4, everything else unset. */
  lemma DbConfigDefaults(file: ConfigFile)
    requires "database" in file && file["database"] == []
    ensures DbConfig(map[], file) == Ok(PoolArgs(None, 3306, None, None, None, "utf8mb4", true, 3600))
  {
    assert NatToString(3306) == "3306";
    ParseIntRoundTrip(3306);
  }

  /** `[c.strip() for c in parts if c.strip()]`: the trimmed pieces that are not empty, in order. */
  function CleanParts(parts: seq<string>): (r: seq<string>)
    ensures |r| <= |parts|
  {
    if parts == [] then []
    else
      var t := Trim(parts[|parts| - 1]);
      CleanParts(parts[..|parts| - 1]) + (if t != "" then [t] else [])
  }

  /** The cleaned piece at `i` is non-empty and has no whitespace left to strip. */
  lemma {:induction false} CleanPartAt(parts: seq<string>, i: nat)
    requires i < |CleanParts(parts)|
    ensures CleanParts(parts)[i] != "" && Trim(CleanParts(parts)[i]) == CleanParts(parts)[i]
  {
    var init, last := parts[..|parts| - 1], parts[|parts| - 1];
    var r0, t := CleanParts(init), Trim(last);
    assert CleanParts(parts) == r0 + (if t != "" then [t] else []);
    if i < |r0| {
      CleanPartAt(init, i);
      assert CleanParts(parts)[i] == r0[i];
    } else {
      StripIdempotent(last, IsSpace);
      assert CleanParts(parts)[i] == t;
    }
  }

  /** Every cleaned piece is non-empty and has no whitespace left to strip. */
  lemma CleanPartsTrimmed(parts: seq<string>)
    ensures var r := CleanParts(parts);
      forall i :: 0 <= i < |r| ==> r[i] != "" && Trim(r[i]) == r[i]
  {
    forall i | 0 <= i < |CleanParts(parts)| ensures CleanParts(parts)[i] != "" && Trim(CleanParts(parts)[i]) == CleanParts(parts)[i] {
      CleanPartAt(parts, i);
    }
  }

  /** `Config.categories()`: the comma-separated `[settings] categories`, each trimmed, empty ones dropped; a missing `[settings]` raises KeyError. */
  function Categories(file: ConfigFile): (r: Result<seq<string>, ConfigError>)
    ensures "settings" !in file <==> r.Err?
    ensures r.Err? ==> r.error == MissingSection("settings")
  {
    if "settings" !in file then Err(MissingSection("settings"))
    else Ok(CleanParts(Split(LookupOr(file["settings"], "categories", ""), ',')))
  }

  /** No configured category is empty or has whitespace at its ends. */
  lemma CategoriesAreClean(file: ConfigFile)
    requires "settings" in file
    ensures var cats := Categories(file).value;
      forall i :: 0 <= i < |cats| ==> cats[i] != "" && Trim(cats[i]) == cats[i]
  {
    var parts := Split(LookupOr(file["settings"], "categories", ""), ',');
    assert Categories(file).value == CleanParts(parts);
    CleanPartsTrimmed(parts);
  }

  /** A name fit for the category list: not empty, no comma, no whitespace at its ends. */
  predicate IsCategoryName(c: string) {
    c != [] && ',' !in c && !IsSpace(c[0]) && !IsSpace(c[|c| - 1])
  }

  /** Pieces that are already category names come through the cleaning unchanged. */
  lemma {:induction false} CleanNames(parts: seq<string>)
    requires forall i :: 0 <= i < |parts| ==> IsCategoryName(parts[i])
    ensures CleanParts(parts) == parts
  {
    if parts != [] {
      var last := parts[|parts| - 1];
      CleanNames(parts[..|parts| - 1]);
      StripUnchanged(last, IsSpace);
      assert parts[..|parts| - 1] + [last] == parts;
    }
  }

  /** Writing names joined by commas into `[settings] categories` reads them back, in order. */
  lemma CategoriesRoundTrip(file: ConfigFile, cats: seq<string>)
    requires forall i :: 0 <= i < |cats| ==> IsCategoryName(cats[i])
    requires "settings" in file && Lookup(file["settings"], "categories") == Some(Join(",", cats))
    ensures Categories(file) == Ok(cats)
  {
    if cats == [] {
      assert Split("", ',') == [""];
      assert Trim("") == "";
    } else {
      assert Join(",", cats) == Join([','], cats);
      SplitJoin(cats, ',');
      CleanNames(cats);
    }
  }

  /** The message of the RuntimeError `api_key()` raises. */
  const NoApiKey := "API key not configured. Set API_KEY env or [api].key in config.ini"

  /**
   * `Config.api_key()`: a non-empty API_KEY wins; otherwise `[api] key` when
   * that section exists; if neither gives a non-empty key it raises.
   */
  function ApiKey(env: Env, file: ConfigFile): (r: Result<string, ConfigError>)
    ensures Truthy(Getenv(env, "API_KEY")) ==> r == Ok(env["API_KEY"])
    ensures !Truthy(Getenv(env, "API_KEY")) && "api" in file && Truthy(Lookup(file["api"], "key")) ==> r == Ok(Lookup(file["api"], "key").value)
    ensures r.Err? <==> !Truthy(Getenv(env, "API_KEY")) && ("api" !in file || !Truthy(Lookup(file["api"], "key")))
    ensures r.Err? ==> r.error == NotConfigured(NoApiKey)
    ensures r.Ok? ==> r.value != ""
  {
    var key := Getenv(env, "API_KEY");
    var key' := if !Truthy(key) && "api" in file then Lookup(file["api"], "key") else key;
    if !Truthy(key') then Err(NotConfigured(NoApiKey)) else Ok(key'.value)
  }

  // ---------------------------------------------------------------------------
  // The key check

  /**
   * `verify_api_key`: the request passes when its `X-API-Key` header is
   * present, not empty and equal to the key loaded at startup (None before
   * startup); otherwise the answer is 401.
   */
  function VerifyApiKey(header: Option<string>, expected: Option<string>): (status: Option<int>)
    ensures status.None? || status == Some(401)
  {
    if !Truthy(header) || header != expected then Some(401) else None
  }

  /** With a configured key exactly the header carrying that key passes; before startup nothing passes. */
  lemma OnlyTheConfiguredKeyPasses(env: Env, file: ConfigFile, header: Option<string>)
    ensures ApiKey(env, file).Ok? ==> (VerifyApiKey(header, Some(ApiKey(env, file).value)).None? <==> header == Some(ApiKey(env, file).value))
    ensures VerifyApiKey(header, None) == Some(401)
  {
  }

  // ---------------------------------------------------------------------------
  // /articles

  /** A query parameter: text or an integer. */
  datatype Param = Text(text: string) | Number(number: int)

  /** The placeholder the MySQL driver fills with one parameter. */
  const Placeholder := "%s"
  const DateClause := "DATE(updated)=" + Placeholder
  const CategoryClause := "categories LIKE " + Placeholder
  /** What the page query adds after the WHERE clause. */
  const PageClause := " ORDER BY updated DESC LIMIT " + Placeholder + " OFFSET " + Placeholder

  /** The parameter for `categories LIKE %s`: the category anywhere in the comma-joined list. */
  function LikePattern(category: string): (p: string)
    ensures |p| == |category| + 2 && p[0] == '%' && p[|p| - 1] == '%' && p[1..|p| - 1] == category
  {
    "%" + category + "%"
  }

  /** `date or await fetch_latest_date(...)`: the requested date unless it is missing or empty. */
  function TargetDate(date: Option<string>, latest: Option<string>): Option<string> {
    Or(date, latest)
  }

  /** `(page - 1) * page_size`, for the page numbers and sizes the endpoint admits. */
  function Offset(page: int, pageSize: int): (o: nat)
    requires page >= 1 && pageSize >= 1
  {
    (page - 1) * pageSize
  }

  /** The first page starts at row 0 and each page starts where the previous one ends. */
  lemma OffsetsTile(page: int, pageSize: int)
    requires page >= 1 && pageSize >= 1
    ensures Offset(1, pageSize) == 0
    ensures Offset(page + 1, pageSize) == Offset(page, pageSize) + pageSize
  {
  }

  lemma PlaceholderCount()
    ensures Count(Placeholder, '%') == 1
  {
    assert Placeholder[..1] == "%" && "%"[..0] == "";
  }

  /** The date and the category clause hold one placeholder each, and " AND " none. */
  lemma ClausePlaceholders()
    ensures Count(DateClause, '%') == 1 && Count(CategoryClause, '%') == 1 && Count(" AND ", '%') == 0
  {
    PlaceholderCount();
    CountAbsent("DATE(updated)=", '%');
    CountConcat("DATE(updated)=", Placeholder, '%');
    CountAbsent("categories LIKE ", '%');
    CountConcat("categories LIKE ", Placeholder, '%');
    CountAbsent(" AND ", '%');
  }

  /** The LIMIT and OFFSET clause holds two placeholders. */
  lemma PageClausePlaceholders()
    ensures Count(PageClause, '%') == 2
  {
    var order, off := " ORDER BY updated DESC LIMIT ", " OFFSET ";
    PlaceholderCount();
    CountAbsent(order, '%');
    CountAbsent(off, '%');
    CountConcat(order, Placeholder, '%');
    CountConcat(order + Placeholder, off, '%');
    CountConcat(order + Placeholder + off, Placeholder, '%');
  }

  /**
   * The `where_clauses`/`params` lists of `/articles`: the date condition
   * first, then the category condition when a category is given, joined by
   * " AND ". Each clause holds one placeholder and adds one parameter.
   */
  method BuildWhere(targetDate: string, category: Option<string>) returns (whereSql: string, params: seq<Param>)
    ensures Count(whereSql, '%') == |params|
    ensures |params| >= 1 && params[0] == Text(targetDate)
    ensures |DateClause| <= |whereSql| && whereSql[..|DateClause|] == DateClause
    ensures Truthy(category) ==> whereSql == DateClause + " AND " + CategoryClause && params == [Text(targetDate), Text(LikePattern(category.value))]
    ensures !Truthy(category) ==> whereSql == DateClause && params == [Text(targetDate)]
  {
    ClausePlaceholders();
    var whereClauses := [DateClause];
    params := [Text(targetDate)];
    if Truthy(category) {
      whereClauses := whereClauses + [CategoryClause];
      params := params + [Text(LikePattern(category.value))];
    }
    whereSql := Join(" AND ", whereClauses);
    if Truthy(category) {
      assert whereClauses == [DateClause, CategoryClause] && whereClauses[..1] == [DateClause];
      assert Join(" AND ", [DateClause]) == DateClause;
      assert whereSql == DateClause + " AND " + CategoryClause;
      CountConcat(DateClause, " AND ", '%');
      CountConcat(DateClause + " AND ", CategoryClause, '%');
      PrefixOfConcat(DateClause, " AND " + CategoryClause);
      AppendAssoc(DateClause, " AND ", CategoryClause);
    } else {
      assert whereSql == DateClause;
    }
  }

  /** What `/articles` does once the key check and the query validation have passed. */
  datatype ArticlesPlan =
    | NoDate(page: int, pageSize: int)   // `{"date": None, "total": 0, "page": ..., "page_size": ..., "items": []}`
    | Run(date: string, whereSql: string, countParams: seq<Param>, pageParams: seq<Param>)

  /**
   * `/articles(date, category, page, page_size)` up to its two queries: with
   * no date and no latest date it answers the empty page; otherwise the
   * count query takes the WHERE parameters and the page query takes them
   * followed by `page_size` and the offset.
   */
  method PlanArticles(date: Option<string>, latest: Option<string>, category: Option<string>, page: int, pageSize: int)
    returns (plan: ArticlesPlan)
    requires page >= 1 && pageSize >= 1
    ensures !Truthy(TargetDate(date, latest)) ==> plan == NoDate(page, pageSize)
    ensures Truthy(TargetDate(date, latest)) ==>
      && plan.Run?
      && plan.date == TargetDate(date, latest).value
      && plan.whereSql == (if Truthy(category) then DateClause + " AND " + CategoryClause else DateClause)
      && plan.countParams == (if Truthy(category) then [Text(plan.date), Text(LikePattern(category.value))] else [Text(plan.date)])
      && (|plan.countParams| == 2 <==> Truthy(category))
      && |plan.countParams| >= 1 && plan.countParams[0] == Text(plan.date)
      && Count(plan.whereSql, '%') == |plan.countParams|
      && plan.pageParams == plan.countParams + [Number(pageSize), Number(Offset(page, pageSize))]
      && Count(plan.whereSql + PageClause, '%') == |plan.pageParams|
  {
    var targetDate := TargetDate(date, latest);
    if !Truthy(targetDate) {
      return NoDate(page, pageSize);
    }
    var whereSql, params := BuildWhere(targetDate.value, category);
    var offset := (page - 1) * pageSize;
    PageClausePlaceholders();
    CountConcat(whereSql, PageClause, '%');
    plan := Run(targetDate.value, whereSql, params, params + [Number(pageSize), Number(offset)]);
  }

  // ---------------------------------------------------------------------------
  // /categories/counts

  /** One item of `/categories/counts`. */
  datatype CategoryCount = CategoryCount(category: string, count: nat)

  /** The answer of `/categories/counts`: the date counted, and the items. */
  datatype CountsAnswer = CountsAnswer(date: Option<string>, items: seq<CategoryCount>)

  /** The loop of `categories_counts`: one `count_by_category` per category, in order. */
  method CountEach(cats: seq<string>, date: string, count: (string, string) -> nat) returns (results: seq<CategoryCount>)
    ensures |results| == |cats|
    ensures forall i :: 0 <= i < |cats| ==> results[i] == CategoryCount(cats[i], count(cats[i], date))
  {
    results := [];
    var i := 0;
    while i < |cats|
      invariant 0 <= i <= |cats| && |results| == i
      invariant forall k :: 0 <= k < i ==> results[k] == CategoryCount(cats[k], count(cats[k], date))
    {
      var cnt := count(cats[i], date);
      results := results + [CategoryCount(cats[i], cnt)];
      i := i + 1;
    }
  }

  /**
   * `/categories/counts(date)`: with no date and no latest date, no items;
   * otherwise one count per configured category, in configuration order.
   * Reading the categories raises when `[settings]` is missing.
   */
  method CategoriesCounts(file: ConfigFile, date: Option<string>, latest: Option<string>, count: (string, string) -> nat)
    returns (r: Result<CountsAnswer, ConfigError>)
    ensures !Truthy(TargetDate(date, latest)) ==> r == Ok(CountsAnswer(None, []))
    ensures Truthy(TargetDate(date, latest)) ==> (r.Err? <==> Categories(file).Err?)
    ensures Truthy(TargetDate(date, latest)) && r.Ok? ==>
      var cats := Categories(file).value;
      var d := TargetDate(date, latest).value;
      && r.value.date == Some(d)
      && |r.value.items| == |cats|
      && forall i :: 0 <= i < |cats| ==> r.value.items[i] == CategoryCount(cats[i], count(cats[i], d))
  {
    var targetDate := TargetDate(date, latest);
    if !Truthy(targetDate) {
      return Ok(CountsAnswer(None, []));
    }
    var categories := Categories(file);
    if categories.Err? {
      return Err(categories.error);
    }
    var results := CountEach(categories.value, targetDate.value, count);
    r := Ok(CountsAnswer(targetDate, results));
  }
}
