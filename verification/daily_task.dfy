/**
 * `arxiv_auto.py` at the level of the job: the category/table pairs and the
 * result limit read from config.ini (`Config.categories_and_tables`,
 * `Config.max_results`), and `daily_task`, which runs one ingestion pass per
 * pair with no exception handling around the passes.
 *
 * The arXiv client is the oracle `fetch`: the records its search yields for a
 * query and a result limit during this run.
 */
module DailyTask {
  import opened Wrappers
  import opened Text
  import opened Settings
  import opened Articles
  import opened Store
  import opened Pipeline

  /** What escapes `daily_task`: a configuration error, or the database error of a pass. */
  datatype JobError = Config(config: ConfigError) | Database(db: DbError)

  /**
   * How a run of `daily_task` ends: every pass completed, or a raise stopped
   * it; `translated` holds, in order, how many new articles each completed pass translated.
   */
  datatype JobOutcome = Done(translated: seq<nat>) | Stopped(translated: seq<nat>, error: JobError)

  /** The query `daily_task` sends for a configured category name: the name after `cat:`. */
  function CategoryQuery(k: string): (q: string)
    ensures |q| == |k| + 4 && q[..4] == "cat:" && q[4..] == k
  {
    "cat:" + k
  }

  /**
   * `categories_and_tables()`: every option of `[categories_and_tables]` in
   * file order, its name prefixed with `cat:`, paired with its table name.
   * A missing section raises KeyError.
   */
  function CategoriesAndTables(file: ConfigFile): (r: Result<seq<(string, string)>, ConfigError>)
    ensures "categories_and_tables" !in file <==> r.Err?
    ensures r.Err? ==> r.error == MissingSection("categories_and_tables")
    ensures r.Ok? ==>
      var section := file["categories_and_tables"];
      && |r.value| == |section|
      && forall i :: 0 <= i < |section| ==> r.value[i] == (CategoryQuery(section[i].0), section[i].1)
  {
    if "categories_and_tables" !in file then Err(MissingSection("categories_and_tables"))
    else
      var section := file["categories_and_tables"];
      Ok(seq(|section|, i requires 0 <= i < |section| => (CategoryQuery(section[i].0), section[i].1)))
  }

  /** True when no option name occurs twice in `section`, as configparser's strict reading guarantees. */
  predicate DistinctOptions(section: Section) {
    forall i, j :: 0 <= i < j < |section| ==> section[i].0 != section[j].0
  }

  /** Distinct category names give distinct queries, so the mapping `daily_task` walks is a dict with one entry per option. */
  lemma CategoryQueriesDistinct(file: ConfigFile)
    requires "categories_and_tables" in file && DistinctOptions(file["categories_and_tables"])
    ensures var pairs := CategoriesAndTables(file).value;
      forall i, j :: 0 <= i < j < |pairs| ==> pairs[i].0 != pairs[j].0
  {
    var section := file["categories_and_tables"];
    var pairs := CategoriesAndTables(file).value;
    forall i, j | 0 <= i < j < |pairs| ensures pairs[i].0 != pairs[j].0 {
      assert pairs[i].0[4..] == section[i].0 && pairs[j].0[4..] == section[j].0;
    }
  }

  /** The text `max_results()` hands to `int`: `[settings] max_results`, else "500" when the option or the section is missing. */
  function MaxResultsText(file: ConfigFile): string {
    if "settings" in file then LookupOr(file["settings"], "max_results", "500") else "500"
  }

  /** `max_results()`: the configured limit as an integer; text `int` rejects raises ValueError. */
  function MaxResults(file: ConfigFile): (r: Result<int, ConfigError>)
    ensures r.Ok? <==> ParseInt(MaxResultsText(file)).Some?
    ensures r.Ok? ==> Some(r.value) == ParseInt(MaxResultsText(file))
    ensures r.Err? ==> r.error == NotAnInteger(MaxResultsText(file))
  {
    match ParseInt(MaxResultsText(file))
    case None => Err(NotAnInteger(MaxResultsText(file)))
    case Some(n) => Ok(n)
  }

  /** Without a `max_results` setting the limit is 500. */
  lemma MaxResultsDefault(file: ConfigFile)
    requires "settings" !in file || !HasOption(file["settings"], "max_results")
    ensures MaxResults(file) == Ok(500)
  {
    assert NatToString(500) == "500";
    ParseIntRoundTrip(500);
  }

  /** A configured limit written as `str(n)` is read back as `n`. */
  lemma MaxResultsConfigured(file: ConfigFile, n: int)
    requires "settings" in file && Lookup(file["settings"], "max_results") == Some(IntToString(n))
    ensures MaxResults(file) == Ok(n)
  {
    ParseIntRoundTrip(n);
  }

  /**
   * The passes of `daily_task` over `pairs`, in order: each reads the limit
   * afresh and runs `fetch_process_insert_articles` on what the search
   * yields; the first raise ends the run.
   */
  function RunPairs(w: World, reply: (nat, string) -> Reply, accepts: (string, seq<Row>) -> bool,
                    fetch: (string, int) -> seq<Record>, file: ConfigFile, pairs: seq<(string, string)>): (World, JobOutcome)
  {
    if pairs == [] then (w, Done([]))
    else
      var prev := RunPairs(w, reply, accepts, fetch, file, pairs[..|pairs| - 1]);
      match prev.1
      case Stopped(_, _) => prev
      case Done(ins) =>
        match MaxResults(file)
        case Err(e) => (prev.0, Stopped(ins, Config(e)))
        case Ok(limit) =>
          var (category, table) := pairs[|pairs| - 1];
          var p := Pass(prev.0, reply, accepts, table, fetch(category, limit));
          match p.1
          case Failed(e) => (p.0, Stopped(ins, Database(e)))
          case Completed(n) => (p.0, Done(ins + [n]))
  }

  /** `daily_task()` on the configuration file `file`. */
  function Daily(w: World, reply: (nat, string) -> Reply, accepts: (string, seq<Row>) -> bool,
                 fetch: (string, int) -> seq<Record>, file: ConfigFile): (World, JobOutcome)
  {
    match CategoriesAndTables(file)
    case Err(e) => (w, Stopped([], Config(e)))
    case Ok(pairs) => RunPairs(w, reply, accepts, fetch, file, pairs)
  }

  /**
   * A run over `pairs` completes every pass or stops at one of them: the
   * completed passes are a prefix of the pairs, one count each, and a run
   * that stopped leaves the pairs after the failing one untouched.
   */
  lemma {:induction false} OnePassPerPair(w: World, reply: (nat, string) -> Reply, accepts: (string, seq<Row>) -> bool,
                                          fetch: (string, int) -> seq<Record>, file: ConfigFile, pairs: seq<(string, string)>)
    ensures var r := RunPairs(w, reply, accepts, fetch, file, pairs).1;
      && (r.Done? ==> |r.translated| == |pairs|)
      && (r.Stopped? ==> |r.translated| < |pairs|)
  {
    if pairs != [] {
      OnePassPerPair(w, reply, accepts, fetch, file, pairs[..|pairs| - 1]);
    }
  }

  /** Once a run has stopped, later pairs change nothing: no pass runs for them. */
  lemma {:induction false} StopsAtFirstFailure(w: World, reply: (nat, string) -> Reply, accepts: (string, seq<Row>) -> bool,
                                               fetch: (string, int) -> seq<Record>, file: ConfigFile,
                                               pairs: seq<(string, string)>, more: seq<(string, string)>)
    requires RunPairs(w, reply, accepts, fetch, file, pairs).1.Stopped?
    ensures RunPairs(w, reply, accepts, fetch, file, pairs + more) == RunPairs(w, reply, accepts, fetch, file, pairs)
  {
    if more != [] {
      var all := pairs + more;
      assert all[..|all| - 1] == pairs + more[..|more| - 1];
      StopsAtFirstFailure(w, reply, accepts, fetch, file, pairs, more[..|more| - 1]);
    } else {
      assert pairs + more == pairs;
    }
  }

  /**
   * The run over the first `i + 1` pairs, when the run over the first `i`
   * completed: a bad limit stops it before the pass of pair `i`; otherwise
   * that pass runs on the world the earlier passes left, and its outcome
   * decides whether the run goes on.
   */
  lemma RunPairsAt(w: World, reply: (nat, string) -> Reply, accepts: (string, seq<Row>) -> bool,
                   fetch: (string, int) -> seq<Record>, file: ConfigFile, pairs: seq<(string, string)>, i: nat)
    requires i < |pairs|
    requires RunPairs(w, reply, accepts, fetch, file, pairs[..i]).1.Done?
    ensures var prev := RunPairs(w, reply, accepts, fetch, file, pairs[..i]);
      var next := RunPairs(w, reply, accepts, fetch, file, pairs[..i + 1]);
      && (MaxResults(file).Err? ==> next == (prev.0, Stopped(prev.1.translated, Config(MaxResults(file).error))))
      && (MaxResults(file).Ok? ==>
        var pass := Pass(prev.0, reply, accepts, pairs[i].1, fetch(pairs[i].0, MaxResults(file).value));
        && next.0 == pass.0
        && (pass.1.Completed? ==> next.1 == Done(prev.1.translated + [pass.1.translated]))
        && (pass.1.Failed? ==> next.1 == Stopped(prev.1.translated, Database(pass.1.error))))
  {
    PrefixOfPrefix(pairs, i);
    var s := pairs[..i + 1];
    assert s[..|s| - 1] == pairs[..i] && s[|s| - 1] == pairs[i];
  }

  /** A run stopped within the first `i` pairs is the whole run. */
  lemma StoppedRunIsWholeRun(w: World, reply: (nat, string) -> Reply, accepts: (string, seq<Row>) -> bool,
                             fetch: (string, int) -> seq<Record>, file: ConfigFile, pairs: seq<(string, string)>, i: nat)
    requires i <= |pairs| && RunPairs(w, reply, accepts, fetch, file, pairs[..i]).1.Stopped?
    ensures RunPairs(w, reply, accepts, fetch, file, pairs) == RunPairs(w, reply, accepts, fetch, file, pairs[..i])
  {
    StopsAtFirstFailure(w, reply, accepts, fetch, file, pairs[..i], pairs[i..]);
    SplitAt(pairs, i);
  }

  /** A limit `int` rejects stops the job before its first pass when there is at least one pair: nothing is fetched, checked or inserted. */
  lemma {:induction false} BadLimitStopsBeforeAnyPass(w: World, reply: (nat, string) -> Reply, accepts: (string, seq<Row>) -> bool,
                                                      fetch: (string, int) -> seq<Record>, file: ConfigFile, pairs: seq<(string, string)>)
    requires MaxResults(file).Err? && pairs != []
    ensures RunPairs(w, reply, accepts, fetch, file, pairs) == (w, Stopped([], Config(MaxResults(file).error)))
  {
    if |pairs| > 1 {
      BadLimitStopsBeforeAnyPass(w, reply, accepts, fetch, file, pairs[..|pairs| - 1]);
    } else {
      assert pairs[..0] == [];
    }
  }

  /** Without a `[categories_and_tables]` section the job raises before touching the database or the model. */
  lemma MissingMappingStopsAtOnce(w: World, reply: (nat, string) -> Reply, accepts: (string, seq<Row>) -> bool,
                                  fetch: (string, int) -> seq<Record>, file: ConfigFile)
    requires "categories_and_tables" !in file
    ensures Daily(w, reply, accepts, fetch, file) == (w, Stopped([], Config(MissingSection("categories_and_tables"))))
  {
  }

  /** A pass that completes only adds to the tables: every article present before it is still present after it. */
  lemma {:induction false} RunPairsKeepsEntries(w: World, reply: (nat, string) -> Reply, accepts: (string, seq<Row>) -> bool,
                                                fetch: (string, int) -> seq<Record>, file: ConfigFile,
                                                pairs: seq<(string, string)>, t: string, id: string)
    requires Exists(w.tables, t, id) == Ok(true)
    ensures Exists(RunPairs(w, reply, accepts, fetch, file, pairs).0.tables, t, id) == Ok(true)
  {
    if pairs != [] {
      var init := pairs[..|pairs| - 1];
      RunPairsKeepsEntries(w, reply, accepts, fetch, file, init, t, id);
      var prev := RunPairs(w, reply, accepts, fetch, file, init);
      if prev.1.Done? && MaxResults(file).Ok? {
        var p := pairs[|pairs| - 1];
        PassKeepsEntries(prev.0, reply, accepts, p.1, fetch(p.0, MaxResults(file).value), t, id);
      }
    }
  }

  /** True when the database and the model are in the state the run over `pairs` leaves, and that run completed with the counts `translated`. */
  ghost predicate AfterRun(db: Database, model: Translator, w: World, fetch: (string, int) -> seq<Record>, file: ConfigFile,
                           pairs: seq<(string, string)>, translated: seq<nat>)
    reads db, model, db.log
  {
    var run := RunPairs(w, model.reply, db.accepts, fetch, file, pairs);
    run.0.tables == db.tables && run.0.calls == model.calls && run.0.events == db.log.events && run.1 == Done(translated)
  }

  /**
   * One turn of the loop of `daily_task`: read the limit, then run the pass
   * of pair `i`; a raise from either is returned as the error.
   */
  method RunPair(db: Database, model: Translator, fetch: (string, int) -> seq<Record>, file: ConfigFile,
                 ghost w: World, pairs: seq<(string, string)>, i: nat, ghost translated: seq<nat>)
    returns (r: Result<nat, JobError>)
    requires i < |pairs| && model.log == db.log
    requires AfterRun(db, model, w, fetch, file, pairs[..i], translated)
    modifies db, model, db.log
    ensures var run := RunPairs(w, model.reply, db.accepts, fetch, file, pairs[..i + 1]);
      && run.0.tables == db.tables && run.0.calls == model.calls && run.0.events == db.log.events
      && (r.Ok? ==> run.1 == Done(translated + [r.value]))
      && (r.Err? ==> run.1 == Stopped(translated, r.error))
  {
    var (category, table) := pairs[i];
    RunPairsAt(w, model.reply, db.accepts, fetch, file, pairs, i);
    var limit := MaxResults(file);
    if limit.Err? {
      return Err(Config(limit.error));
    }
    var pass := FetchProcessInsertArticles(db, model, table, fetch(category, limit.value));
    if pass.Failed? {
      return Err(Database(pass.error));
    }
    r := Ok(pass.translated);
  }

  /**
   * `daily_task()`: read the pairs once, then for each pair in turn read the
   * limit and run a pass. Nothing catches a raise, so the first one ends the
   * job and is returned as `Stopped`.
   */
  method RunDailyTask(db: Database, model: Translator, fetch: (string, int) -> seq<Record>, file: ConfigFile)
    returns (outcome: JobOutcome)
    requires model.log == db.log
    modifies db, model, db.log
    ensures var d := Daily(World(old(db.tables), old(model.calls), old(db.log.events)), model.reply, db.accepts, fetch, file);
      db.tables == d.0.tables && model.calls == d.0.calls && db.log.events == d.0.events && outcome == d.1
  {
    ghost var w := World(db.tables, model.calls, db.log.events);
    var mapping := CategoriesAndTables(file);
    if mapping.Err? {
      return Stopped([], Config(mapping.error));
    }
    var pairs := mapping.value;
    var translated: seq<nat> := [];
    var i := 0;
    while i < |pairs|
      invariant 0 <= i <= |pairs|
      invariant AfterRun(db, model, w, fetch, file, pairs[..i], translated)
    {
      var r := RunPair(db, model, fetch, file, w, pairs, i, translated);
      if r.Err? {
        StoppedRunIsWholeRun(w, model.reply, db.accepts, fetch, file, pairs, i + 1);
        return Stopped(translated, r.error);
      }
      translated := translated + [r.value];
      i := i + 1;
    }
    WholePrefix(pairs);
    outcome := Done(translated);
  }
}
