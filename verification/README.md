# Arxiv Day ingestion and data API, modelled in Dafny

Arxiv Day collects recent arXiv papers per category, translates their titles
and summaries with a chat model, and stores them in one MySQL table per
category. A read-only HTTP API serves the stored articles, and a web front end
renders pages from that API.

This project models:

- the ingestion job of `arxiv_auto.py`:
  - the `Article` record built from an arXiv result;
  - its translation with at most three attempts per field;
  - the existence check and the batch insert with commit or rollback;
  - one ingestion pass (`fetch_process_insert_articles`);
  - `daily_task`, which runs one pass per configured category;
- the MySQL settings of `conn_database.py`;
- the configuration, API-key check and query shaping of `api/data_api.py`;
- the configuration, URL handling, timestamp conversion, count merge and
  request shaping of `server/asyn_server.py`.

The outside world is passed in as values:

- the process environment is an `Env` map;
- a read INI file is a `ConfigFile` map from section name to its option/value pairs;
- the arXiv search is an oracle from query and limit to records;
- the chat model is an oracle from call number and message to a reply;
- whether MySQL accepts a batch is an oracle;
- the database reads of the API are oracles;
- `datetime.fromisoformat` is an oracle;
- the HTTP exchange of the front end is an oracle.

The imperative code is modelled imperatively. `Database`, `Translator`,
`Article` and the shared event `Log` are classes. The pass, its loops and
`daily_task` are methods. Each method is proved equal to a function on a
`World` value: the tables, the number of model calls and the log of events.
The lemmas about those functions state what a pass and a run do.

Modules, one per file:

- `Wrappers`: `Option` and `Result`.
- `Text`: Python `str` operations: strip, lower, split, join, `int()`.
- `Settings`: environment and configparser lookups.
- `ConnDatabase`: `conn_database.py`.
- `Articles`, `Store`, `Pipeline`, `DailyTask`: `arxiv_auto.py`.
- `DataApi`: `api/data_api.py`.
- `Server`: `server/asyn_server.py`.

Two behaviours of the code a reader may not expect, and two differences
between the files:

- `daily_task` has no exception handling. The first pass that raises stops
  the whole run, and later categories are not fetched (`DailyTask.StopsAtFirstFailure`).
- Two results of one fetch with the same entry id both pass the existence
  check, although `fetch_process_insert_articles` says it avoids duplicates
  (arxiv_auto.py:173). The check looks only at the table before the insert,
  and the insert batch contains both (`Pipeline.DuplicatesBothSurvive`).
- `arxiv_auto.py` and `conn_database.py` read config.ini with configparser's
  default option-name folding. `api/data_api.py` and `server/asyn_server.py`
  keep option names as written.
- The two `api_key` loaders differ:
  - the data API checks `has_section("api")`;
  - the front end indexes `config["api"]` and raises KeyError when the section is missing.

## Model

| member | source | states |
|---|---|---|
| Settings.Lookup | api/data_api.py:40 | `section.get(option)` has a value exactly when the section holds that option |
| Text.StripRight | server/asyn_server.py:29 | `rstrip` returns a prefix; every removed character is one of those stripped; the result does not end in one |
| Text.StripLeft | conn_database.py:23 | `lstrip` returns a suffix; every removed character is one of those stripped; the result does not start with one |
| Text.Strip | conn_database.py:23 | `strip` leaves neither end in the stripped set |
| Text.StripRightUnique | server/asyn_server.py:29 | those three properties determine `rstrip`'s result uniquely |
| Text.StripLeftUnique | conn_database.py:23 | those three properties determine `lstrip`'s result uniquely |
| Text.StripPadding | conn_database.py:10 | stripping ignores any padding made of stripped characters |
| Text.StripUnchanged | api/data_api.py:41 | a string whose ends are not stripped characters is returned unchanged |
| Text.StripIdempotent | api/data_api.py:41 | stripping twice is stripping once |
| Text.Trim | conn_database.py:10 | `str.strip()` with no argument: `Strip` of Python's whitespace (stated by `StripPadding`, `StripUnchanged`, `StripIdempotent`) |
| Text.Lower | conn_database.py:10 | `lower` maps each character and keeps the length |
| Text.LowerIdempotent | conn_database.py:10 | lower-casing twice is lower-casing once |
| Text.LowerTrimCommute | conn_database.py:10 | `strip().lower()` equals `lower().strip()` |
| Text.Split | api/data_api.py:41 | `split(sep)` gives at least one piece and no piece contains the separator |
| Text.Join | arxiv_auto.py:213-215 | `sep.join(parts)`: the parts with the separator between consecutive ones (stated by `JoinSplit`, `SplitJoin`) |
| Text.SplitConcat | arxiv_auto.py:215 | splitting across a separator splits each side: the pieces of the left, then those of the right |
| Text.JoinSplit | api/data_api.py:41 | joining the pieces of a split with the separator gives the string back |
| Text.SplitJoin | arxiv_auto.py:213 | splitting a join of at least one separator-free piece gives the pieces back |
| Text.SplitLength | api/data_api.py:41 | a split has one more piece than the string has separators |
| Text.CountConcat | api/data_api.py:191 | placeholders in a concatenation add up |
| Text.ParseInt | conn_database.py:27 | `int()` of a string: surrounding whitespace removed, then an optional sign and decimal digits (stated by `ParseIntRoundTrip`, `ParseIntPadding`) |
| Text.ParseIntRoundTrip | conn_database.py:27 | `int(str(i)) == i` |
| Text.ParseIntPadding | conn_database.py:27 | `int()` ignores surrounding whitespace |
| ConnDatabase.ParseBool | conn_database.py:7-10 | None gives the default; otherwise the value is true exactly when, stripped and lower-cased, it is a true word |
| ConnDatabase.ParseBoolNormalises | conn_database.py:10 | whitespace padding and case do not change the answer, and the default plays no part once a value is present |
| ConnDatabase.PaddedTrueIsTrue | conn_database.py:10 | `" TRUE "` reads as true |
| ConnDatabase.EmptyIsFalse | conn_database.py:8-10 | an empty value is false even with default True, because it is not None |
| ConnDatabase.CleanHost | conn_database.py:23 | the host has no quote at either end and is no longer than the raw text |
| ConnDatabase.CleanHostUnquotes | conn_database.py:23 | whitespace around the text and quotes around the host are removed, and the host inside is kept as written |
| ConnDatabase.ConnectTimeout | conn_database.py:32 | `int()` of the configured connect_timeout, or 10 when it is not set |
| ConnDatabase.LoadDbConfig | conn_database.py:13-34 | missing `[database]` raises; the result exists exactly when port and connect_timeout parse; host, port, user, password and database come from the environment first, then config, then the default; charset, connect_timeout (`ConnectTimeout`) and autocommit come from config or their default |
| ConnDatabase.LoadDbConfigDefaults | conn_database.py:20-34 | an empty `[database]` and no environment give port 3306, charset utf8mb4, timeout 10 and autocommit on |
| ConnDatabase.LoadDbConfigEnvWins | conn_database.py:22-30 | environment values override host, port, user, password and database |
| Articles.OrEmpty | arxiv_auto.py:19-30 | a missing text field becomes "" |
| Articles.OrNone | arxiv_auto.py:18-19 | a missing list becomes empty |
| Articles.AuthorNames | arxiv_auto.py:18 | one name per author, in order, "" for an author without a name |
| Articles.LinkTexts | arxiv_auto.py:25 | one `href,title,rel,content_type` text per link, in order |
| Articles.LinkTextIsJoin | arxiv_auto.py:25 | the link text is the comma join of the four parts |
| Articles.LinkTextSplits | arxiv_auto.py:25 | when no part contains a comma, splitting the text on commas gives the four parts back |
| Articles.CommaInHrefIsAmbiguous | arxiv_auto.py:25 | a comma in the href makes the text split into more than four parts |
| Articles.NormalizeMissing | arxiv_auto.py:14-30 | a result with every field missing becomes empty strings and empty lists |
| Articles.EmptyLinkText | arxiv_auto.py:25 | a link with nothing set is stored as `",,,"` |
| Articles.Normalize | arxiv_auto.py:14-30 | what `Article.__init__` stores: each missing field as "" or [], authors as names and links as texts (stated by `OrEmpty`, `OrNone`, `AuthorNames`, `LinkTexts`, `NormalizeMissing`) |
| Articles.LinkText | arxiv_auto.py:25 | the `href,title,rel,content_type` text of one link (stated by `LinkTextIsJoin`, `LinkTextSplits`, `EmptyLinkText`) |
| Articles.Swallowing | arxiv_auto.py:79-94 | `ChatGPTModel.prompt` never raises: an exception from the client becomes None, and any other answer passes through |
| Articles.Translator.Prompt | arxiv_auto.py:79-92 | one prompt: the answer for this call number, one more call, one prompt event logged |
| Articles.Retry | arxiv_auto.py:39-45 | with attempts left, at least one call and at most the attempts left |
| Articles.RetryStopsAtFirstAnswer | arxiv_auto.py:39-45 | every call before the answer raised; with no answer every attempt was used and raised |
| Articles.RetryFirstAnswer | arxiv_auto.py:39-45 | when call k is the first that returns, the retry makes k+1 calls and keeps that answer |
| Articles.RetryAllRaised | arxiv_auto.py:39-50 | when every attempt raises, all are used and there is no answer |
| Articles.Settle | arxiv_auto.py:48-50 | no answer gives "Translation failed."; otherwise the answer, None included |
| Articles.TranslateShape | arxiv_auto.py:32-66 | translating one article makes between 2 and 6 calls, each logged as a prompt |
| Articles.OneCallPerFieldWhenNothingRaises | arxiv_auto.py:39-58 | with a model that never raises, exactly two calls, and their answers are stored |
| Articles.AlwaysRaisingModel | arxiv_auto.py:35-66 | a model that always raises gives both fields "Translation failed." after 3+3 calls |
| Articles.TitleFailureLeavesSummaryBudget | arxiv_auto.py:52-58 | the retry counter is reset, so a failed title does not use up the summary's attempts |
| Articles.Translate | arxiv_auto.py:32-68 | `gpt_CN_translate` as a function: the title's attempts, then the summary's from the next call number, each settled, with their prompt events (stated by `TranslateShape`, `OneCallPerFieldWhenNothingRaises`, `AlwaysRaisingModel`, `TitleFailureLeavesSummaryBudget`; `Article.GptCnTranslate` is proved equal to it) |
| Articles.Article.constructor | arxiv_auto.py:14-30 | the article holds the normalised result and no translation yet |
| Articles.Article.GptCnTranslate | arxiv_auto.py:32-68 | sets both translated fields, the call count and the log exactly as `Translate` describes |
| Articles.RetryPrompt | arxiv_auto.py:35-50 | the retry loop makes the calls `Retry` describes; the retry counter reaches 3 exactly when nothing answered |
| Articles.ToRow | arxiv_auto.py:212-216 | each of the 14 columns is the matching article field or translation, the authors, categories and links columns being their lists joined with "," |
| Articles.AuthorsColumnSplits | arxiv_auto.py:213 | when there is at least one author and no name contains a comma, the authors column splits back into the names |
| Articles.NoAuthorsLikeOneNameless | arxiv_auto.py:213 | no authors and one author without a name give the same empty column, which splits into one empty name |
| Articles.CategoriesColumnSplits | arxiv_auto.py:213 | when there is at least one category and none contains a comma, the categories column splits back into the categories |
| Articles.LinksColumnSplits | arxiv_auto.py:215 | for arbitrary metadata, not fetched results (every link text holds three commas), the links column splits back into the link texts when there is at least one and none contains a comma |
| Articles.AllLinkParts | arxiv_auto.py:25 | the parts of all links in order, four per link |
| Articles.LinksColumnParts | arxiv_auto.py:25 | since each link text holds three commas, when there is at least one link and no part contains a comma, the joined link texts split into the four parts of each link in turn, not into one piece per link |
| Articles.LinksColumnOfFetchedResult | arxiv_auto.py:215 | when a fetched result has at least one link and no part contains a comma, its stored links column splits into the parts of its links, four per link |
| Articles.Records | arxiv_auto.py:212-216 | one row per article, in order |
| Store.Exists | arxiv_auto.py:130-138 | true exactly when some row has the entry id; a missing table raises |
| Store.Commits | arxiv_auto.py:224-225 | `executemany` succeeds, so that the commit is reached, exactly when the table exists and MySQL accepts the batch (used by `AfterInsert` and `ExecuteMany`) |
| Store.AfterInsert | arxiv_auto.py:221-229 | a committed batch is appended to its table; otherwise nothing changes |
| Store.AllOrNothing | arxiv_auto.py:221-229 | the table gains the whole batch or nothing, and no other table changes |
| Store.CommittedRowsExist | arxiv_auto.py:224-225 | after a commit every inserted article passes the existence check |
| Store.InsertKeepsEntries | arxiv_auto.py:221-229 | an insert never removes an existing article |
| Store.Database.ArticleExists | arxiv_auto.py:130-138 | one COUNT query is logged; the answer is `Exists` |
| Store.Database.ExecuteMany | arxiv_auto.py:224-229 | commits exactly when the batch is accepted; the tables become `AfterInsert`; one batch event is logged |
| Store.InsertArticlesToDatabase | arxiv_auto.py:202-232 | one row per article in a single batch; a database error is rolled back and not raised |
| Pipeline.Process | arxiv_auto.py:182-200 | the pass once fetched: an empty fetch does nothing, a missing table fails at the first check, otherwise checks, then `TranslateAndInsert` of the new articles (stated by `PassInsertsExactlySurvivors`, `ChecksBeforePrompts`, `NothingNewOnlyChecks`, `MissingTableFails`) |
| Pipeline.Pass | arxiv_auto.py:171-200 | `fetch_process_insert_articles` on the fetched records, as `Process` of their normalised articles |
| Pipeline.TranslateAndInsert | arxiv_auto.py:190-198 | translate each new article in order, then insert their rows as one batch (stated by `TranslateAndInsertInsertsAll`, `TranslateAndInsertKeepsIdsUnique`) |
| Pipeline.Metas | arxiv_auto.py:152-158 | one normalised article per fetched result, in order |
| Pipeline.Survivors | arxiv_auto.py:182-186 | the new articles are at most the fetched ones |
| Pipeline.CheckEvents | arxiv_auto.py:184-185 | one existence query per fetched article, in fetch order, on the pass's table |
| Pipeline.TranslateAll | arxiv_auto.py:193-196 | one translation per new article |
| Pipeline.TranslateAllShape | arxiv_auto.py:193-196 | translating n articles makes between 2n and 6n calls, all logged as prompts |
| Pipeline.TranslateAllStep | arxiv_auto.py:193-196 | translating one more article appends its translation, calls and events |
| Pipeline.Rows | arxiv_auto.py:212-216 | row k is built from article k and its translation |
| Pipeline.SurvivorsAreNew | arxiv_auto.py:184-186 | every new article was fetched and is absent from the table |
| Pipeline.NewCandidatesSurvive | arxiv_auto.py:184-186 | every fetched article absent from the table is kept |
| Pipeline.SurvivorsConcat | arxiv_auto.py:184-186 | the filter keeps fetch order: filtering a concatenation concatenates the filtered parts |
| Pipeline.DuplicatesBothSurvive | arxiv_auto.py:182-186 | two fetched results with the same new id are both kept |
| Pipeline.AllKnownNoSurvivors | arxiv_auto.py:184-186 | when every fetched article is already stored, nothing is kept |
| Pipeline.EmptyFetchDoesNothing | arxiv_auto.py:183-188 | an empty fetch runs no query, no prompt and no insert |
| Pipeline.NothingNewOnlyChecks | arxiv_auto.py:182-200 | with nothing new, a pass only logs its existence checks |
| Pipeline.MissingTableFails | arxiv_auto.py:185 | a missing table makes the first check raise, before any prompt or insert |
| Pipeline.ChecksBeforePrompts | arxiv_auto.py:182-197 | a pass logs existence checks first, then prompts, then at most one insert batch |
| Pipeline.TranslateAndInsertInsertsAll | arxiv_auto.py:190-197 | translating and inserting n articles makes 2n to 6n calls, and the table gains exactly their rows or is unchanged |
| Pipeline.PassInsertsExactlySurvivors | arxiv_auto.py:171-200 | on an existing table a pass completes, translates exactly the new articles, and inserts exactly them or nothing |
| Pipeline.PassSubmitsEverySurvivor | arxiv_auto.py:190-197 | whatever the model answers, a pass with new articles ends with one insert batch on its table holding all of them |
| Pipeline.PassEndsWithBatch | arxiv_auto.py:182-197 | a pass with new articles is its existence checks followed by `TranslateAndInsert` of them |
| Pipeline.SentinelRows | arxiv_auto.py:48-50 | one row per article with its entry id and the sentinel in both translation columns |
| Pipeline.TranslateAllAlwaysRaising | arxiv_auto.py:46-50 | with a model that always raises, every translated article carries the sentinel in both fields |
| Pipeline.SentinelRowsOf | arxiv_auto.py:212-216 | articles whose translations are all the sentinel become exactly the sentinel rows |
| Pipeline.TranslationNeverBlocksIngestion | arxiv_auto.py:190-197 | when every model call raises, a pass with new articles still completes and submits all of them, with the sentinel in both translation columns, as one batch that is committed or rolled back |
| Pipeline.PassKeepsEntries | arxiv_auto.py:171-200 | an article that was stored before a pass is still stored after it |
| Pipeline.RepeatedPassAddsNothing | arxiv_auto.py:171-200 | after a committed pass, a second pass over the same results only logs checks |
| Pipeline.SurvivorsDistinct | arxiv_auto.py:184-186 | distinct fetched ids stay distinct among the new articles |
| Pipeline.TranslateAndInsertKeepsIdsUnique | arxiv_auto.py:190-197 | inserting distinct new articles keeps the table's entry ids unique |
| Pipeline.PassKeepsIdsUnique | arxiv_auto.py:171-200 | a pass over results with distinct ids keeps the table's entry ids unique |
| Pipeline.FetchRecentArticles | arxiv_auto.py:151-160 | one fresh, untranslated article per result, in order, normalised |
| Pipeline.FilterNewArticles | arxiv_auto.py:182-186 | logs one check per article; keeps exactly the survivors, in order; a missing table raises at the first check |
| Pipeline.TranslateEach | arxiv_auto.py:192-196 | translates every article, with the calls, log and fields `TranslateAll` describes |
| Pipeline.TranslateAndInsertArticles | arxiv_auto.py:190-198 | the tables, calls and log become `TranslateAndInsert` of the new articles |
| Pipeline.InsertNewArticles | arxiv_auto.py:190-200 | with no new article nothing changes; otherwise as `TranslateAndInsert` |
| Pipeline.ProcessArticles | arxiv_auto.py:182-200 | the state and outcome are those of `Process` on the fetched articles |
| Pipeline.FetchProcessInsertArticles | arxiv_auto.py:171-200 | the state and outcome are those of `Pass` on the fetched results |
| DailyTask.RunPairs | arxiv_auto.py:239-240 | one pass per pair, in order, each on the world the previous left, stopping at the first that raises (stated by `OnePassPerPair`, `StopsAtFirstFailure`, `RunPairsAt`) |
| DailyTask.Daily | arxiv_auto.py:234-240 | `daily_task`: the mapping is read first, then `RunPairs` over it with the configured limit (stated by `MissingMappingStopsAtOnce`, `BadLimitStopsBeforeAnyPass`, `RunPairsKeepsEntries`) |
| DailyTask.CategoryQuery | arxiv_auto.py:111 | the query is `cat:` followed by the option name |
| DailyTask.CategoriesAndTables | arxiv_auto.py:110-111 | a missing section raises; otherwise one (query, table) pair per option, in file order |
| DailyTask.CategoryQueriesDistinct | arxiv_auto.py:111 | distinct option names give distinct queries |
| DailyTask.MaxResults | arxiv_auto.py:116-117 | `int()` of the configured or default text; a text `int()` rejects raises |
| DailyTask.MaxResultsDefault | arxiv_auto.py:117 | without the option the limit is 500 |
| DailyTask.MaxResultsConfigured | arxiv_auto.py:117 | a configured integer is used as written |
| DailyTask.OnePassPerPair | arxiv_auto.py:239-240 | a completed run has one count per pair; a stopped run has fewer |
| DailyTask.StopsAtFirstFailure | arxiv_auto.py:239-240 | once a run has stopped, later pairs change nothing |
| DailyTask.RunPairsAt | arxiv_auto.py:239-240 | pair i runs one pass on the world the earlier passes left, and its outcome decides whether the run goes on |
| DailyTask.StoppedRunIsWholeRun | arxiv_auto.py:239-240 | a run stopped within the first i pairs is the whole run |
| DailyTask.BadLimitStopsBeforeAnyPass | arxiv_auto.py:240 | when there is at least one pair, an unreadable max_results stops the job before its first fetch |
| DailyTask.MissingMappingStopsAtOnce | arxiv_auto.py:239 | without `[categories_and_tables]` the job raises before touching the database or the model |
| DailyTask.RunPairsKeepsEntries | arxiv_auto.py:234-240 | a run never removes a stored article |
| DailyTask.RunPair | arxiv_auto.py:240 | one step of the loop takes the state to that of the run over one more pair |
| DailyTask.RunDailyTask | arxiv_auto.py:234-240 | the state and outcome are those of `Daily` on the configuration |
| DataApi.DbConfig | api/data_api.py:23-34 | missing `[database]` raises; the result exists exactly when the port parses; host, port, user, password and db come from the environment, else `[database]`, else the default; charset from `[database]` or utf8mb4; autocommit is on and pool_recycle is 3600 |
| DataApi.DbConfigEnvWins | api/data_api.py:26-30 | environment values override host, port, user, password and database |
| DataApi.DbConfigDefaults | api/data_api.py:24-34 | with nothing set, port 3306 and charset utf8mb4 |
| DataApi.CleanParts | api/data_api.py:41 | no more categories than comma-separated pieces |
| DataApi.CleanPartAt | api/data_api.py:41 | each kept category is non-empty and already stripped |
| DataApi.CleanPartsTrimmed | api/data_api.py:41 | all kept categories are non-empty and stripped |
| DataApi.Categories | api/data_api.py:39-41 | a missing `[settings]` raises KeyError, and only then |
| DataApi.CategoriesAreClean | api/data_api.py:39-41 | no configured category is empty or padded |
| DataApi.CleanNames | api/data_api.py:41 | pieces that are already clean names pass through unchanged |
| DataApi.CategoriesRoundTrip | api/data_api.py:39-41 | writing clean names joined by commas reads them back in order |
| DataApi.ApiKey | api/data_api.py:43-49 | a non-empty API_KEY wins; then a non-empty `[api] key`; otherwise it raises; a returned key is never empty |
| DataApi.VerifyApiKey | api/data_api.py:78-87 | the check lets the request through or answers 401, nothing else |
| DataApi.OnlyTheConfiguredKeyPasses | api/data_api.py:78-87 | with a loaded key exactly the header carrying it passes; before startup nothing passes |
| DataApi.LikePattern | api/data_api.py:169 | the LIKE parameter is the category between two `%` |
| DataApi.TargetDate | api/data_api.py:161 | the requested date when given, else the latest stored date (used by `PlanArticles` and `CategoriesCounts`) |
| DataApi.Offset | api/data_api.py:172 | the first row of a page, `(page - 1) * page_size` (stated by `OffsetsTile`) |
| DataApi.OffsetsTile | api/data_api.py:172 | page 1 starts at 0 and each page starts page_size after the previous |
| DataApi.ClausePlaceholders | api/data_api.py:165-170 | each WHERE clause has one `%s`, the joiner none |
| DataApi.PageClausePlaceholders | api/data_api.py:189 | LIMIT/OFFSET adds two placeholders |
| DataApi.BuildWhere | api/data_api.py:165-170 | the clause starts with the date condition; the `%` count equals the number of parameters; a category adds one LIKE clause with `%category%` |
| DataApi.PlanArticles | api/data_api.py:150-192 | no target date gives the empty page echo; otherwise both queries use `WHERE DATE(updated)=%s`, plus ` AND categories LIKE %s` exactly when a category is given, with the target date and then `%category%` as parameters, as many as placeholders, and the page query adds page_size and the offset |
| DataApi.CountEach | api/data_api.py:235-238 | one count per category, in order |
| DataApi.CategoriesCounts | api/data_api.py:226-239 | no date gives no items; otherwise one item per configured category, in configuration order, or the configuration error |
| Server.RawBaseUrl | server/asyn_server.py:28 | a non-empty API_BASE_URL wins; otherwise `[api]` must exist |
| Server.ApiBaseUrl | server/asyn_server.py:27-32 | the raw base minus all trailing `/`; never empty and never ending in `/`; raises exactly when the raw base is only slashes |
| Server.NormalisedBaseUrlKept | server/asyn_server.py:29 | a base with no trailing `/` is returned as configured |
| Server.ApiBaseUrlIdempotent | server/asyn_server.py:27-32 | feeding the loaded base back in gives the same base |
| Server.ApiKey | server/asyn_server.py:34-38 | a non-empty API_KEY wins; otherwise `[api]` must exist and its non-empty key is used, else it raises |
| Server.JoinUrl | server/asyn_server.py:45 | base+path when the path starts with `/`, else base+`/`+path |
| Server.JoinUrlOneSeparator | server/asyn_server.py:45 | a leading `/` on the path is optional: both forms give the same URL, with one `/` after the base |
| Server.ApiGet | server/asyn_server.py:41-53 | only a 200 answer with a JSON body returns that body; any other status, or any failure, is a Bad Gateway whose reason starts with "API request failed: " |
| Server.CleanStamp | server/asyn_server.py:61 | every trailing `Z` is removed and nothing else |
| Server.ParseItem | server/asyn_server.py:58-65 | only a non-empty string `updated` that parses is replaced by its datetime; every other key and every other item is unchanged |
| Server.ParsedItems | server/asyn_server.py:56-66 | the same number of items, each converted |
| Server.ParseItemIdempotent | server/asyn_server.py:58-65 | converting an item twice is converting it once |
| Server.ParsedItemsIdempotent | server/asyn_server.py:56-66 | converting the list twice is converting it once |
| Server.ParseUpdatedField | server/asyn_server.py:56-66 | the items are converted in place and the same list is returned |
| Server.Get | server/asyn_server.py:79 | a dict has a value for a key exactly when it holds the key |
| Server.SetItem | server/asyn_server.py:79 | assignment keeps every key in place and appends a new key at the end |
| Server.GetSetItem | server/asyn_server.py:79 | after assignment the key has the new value |
| Server.GetSetItemOther | server/asyn_server.py:79 | assignment leaves every other key's value as it was |
| Server.SetItemDistinct | server/asyn_server.py:79 | assignment keeps keys distinct |
| Server.CountsDict | server/asyn_server.py:79 | an item without `category` raises KeyError, and only then; the result has distinct keys |
| Server.CountsDictLastWins | server/asyn_server.py:79 | a category's count is the one its last item carries, 0 when it has none |
| Server.SetDefaults | server/asyn_server.py:80-81 | `setdefault(cat, 0)` for each configured category in turn (stated by the four `SetDefaults…` lemmas; `MergeCategoryCounts` is proved equal to it) |
| Server.SetDefaultsKeepsApi | server/asyn_server.py:80-81 | the API's entries stay first, in order, with their counts |
| Server.SetDefaultsCovers | server/asyn_server.py:80-81 | every configured category ends up as a key |
| Server.SetDefaultsAdds | server/asyn_server.py:80-81 | every added entry is a configured category the API did not send, with count 0 |
| Server.SetDefaultsDistinct | server/asyn_server.py:80-81 | the defaults add no second entry for a key |
| Server.MergeCategoryCounts | server/asyn_server.py:79-81 | the `setdefault` loop keeps the API's counts first and unchanged, adds each missing configured category with 0, and keeps keys distinct |
| Server.ArticleRequest | server/asyn_server.py:102-104 | page_size is always 1000; date is sent exactly when a non-empty one was given |
| Server.ArticleTitle | server/asyn_server.py:113 | "Arxiv: TODAY" without a date, else "Arxiv: " and the date |
| Server.TitleMatchesRequest | server/asyn_server.py:102-113 | the title shows the date the request sends, or TODAY when it sends none |
| Server.CountsRequest | server/asyn_server.py:78 | the counts request sends the latest date exactly when there is one |

## Left out

- The arXiv client and its network search (arxiv_auto.py:144-152): the records a search yields are an input.
- The OpenAI client, the model name, temperature and max_tokens (arxiv_auto.py:75-91): the chat model is an oracle.
- MySQL connections, cursors, SQL text and COUNT results: the tables are sequences of rows, and `executemany` success is an oracle.
- The path where connecting itself fails in `insert_articles_to_database`, after which `finally` touches unbound names (arxiv_auto.py:221-232).
- The scheduler, `time.sleep`, `main` and `fetch_frequency` (arxiv_auto.py:113-114, 243-255): timing only, with no result to state.
- `translate_articles` (arxiv_auto.py:162-169): nothing calls it.
- `Config.db_config` and `Config.api_key` of `arxiv_auto.py` (arxiv_auto.py:104-108): connecting and the client key are outside the model.
- The unused `categories_and_tables()` call inside `article_exists` (arxiv_auto.py:131-132): a run reaching it has already read that section successfully.
- Every `print`: logging only.
- Failures that stop `daily_task` in the source but are not modelled: a connection failure in `article_exists` (arxiv_auto.py:134), a failing arXiv search (arxiv_auto.py:152), and the KeyErrors of `config.api_key()` and `config.db_config()` (arxiv_auto.py:176-177). On an existing table a pass therefore always completes in the model.
- Store.HasEntry: compares entry ids by exact equality. MySQL evaluates `WHERE entry_id = %s` (arxiv_auto.py:133) under the column's collation, which may ignore case or trailing spaces.
- configparser file reading, its DEFAULT section, interpolation and option-name folding: a read file is passed in as a map.
- Each pass builds a new `Config`, model and `Database`. The model reads one configuration for the whole run, so a config.ini edited during a run is not modelled.
- `str.lower` covers ASCII letters only, not the full Unicode case mapping.
- `int()` is modelled on optional sign, decimal digits and surrounding whitespace. Underscores and non-ASCII digits are not modelled.
- Pipeline.TranslateEach: requires the articles to be distinct objects. `FetchRecentArticles` guarantees this; the source would also loop over a list that repeats an object.
- Datetime parsing and formatting (`fromisoformat`, `strftime`, `DATE(updated)`): parsing is an oracle, and dates are strings.
- `articles_table`, `fetch_latest_date`, `count_by_category` and the `/latest`, `/calendar`, `/`, `/health` endpoints of api/data_api.py: SQL reads whose answers are oracles, or constant responses.
- The `ge=1` validation of `page` and `page_size` (api/data_api.py:154-155): FastAPI enforces it, so `DataApi.PlanArticles` requires it.
- Async pools, the FastAPI and aiohttp servers, startup and shutdown hooks, and all HTML and Jinja rendering.
- Server.ApiGet: assumes that the message of an aiohttp HTTP exception is its reason text. aiohttp itself is not part of this model.
- `server_port`, `handle_404` and `calendar_handler` of server/asyn_server.py: there is no logic beyond a lookup and rendering.
- The values of API answers other than those modelled (`latest`, `count`, the calendar lists): they pass straight to templates.
