/**
 * `arxiv_auto.py`: one ingestion pass (`fetch_process_insert_articles`) and
 * the job that runs a pass for every configured category (`daily_task`).
 *
 * Each operation is a method over the `Database` and `Translator` objects,
 * proved equal to a function on a `World` value (the tables, the number of
 * model calls so far and the event log); the properties of a pass are lemmas
 * about that function.
 */
module Pipeline {
  import opened Wrappers
  import opened Text
  import opened Settings
  import opened Articles
  import opened Store

  /** Everything a pass can change. */
  datatype World = World(tables: Tables, calls: nat, events: seq<Event>)

  /** How a pass ends: it returns after translating `translated` articles, or an existence check raises. */
  datatype PassOutcome = Completed(translated: nat) | Failed(error: DbError)

  // ---------------------------------------------------------------------------
  // The three phases of a pass, as functions

  /** The metadata of the articles built from the fetched results, in fetch order. */
  function Metas(records: seq<Record>): (ms: seq<Metadata>)
    ensures |ms| == |records|
    ensures forall k :: 0 <= k < |ms| ==> ms[k] == Normalize(records[k])
  {
    seq(|records|, k requires 0 <= k < |records| => Normalize(records[k]))
  }

  /** The metadata of a list of articles. */
  function MetasOf(arts: seq<Article>): (ms: seq<Metadata>)
    ensures |ms| == |arts|
    ensures forall k :: 0 <= k < |ms| ==> ms[k] == arts[k].meta
  {
    seq(|arts|, k requires 0 <= k < |arts| => arts[k].meta)
  }

  /** The candidates whose entry id is not yet in the table, in fetch order. */
  function Survivors(rows: seq<Row>, ms: seq<Metadata>): (s: seq<Metadata>)
    ensures |s| <= |ms|
  {
    if ms == [] then []
    else
      var last := ms[|ms| - 1];
      Survivors(rows, ms[..|ms| - 1]) + (if HasEntry(rows, last.entryId) then [] else [last])
  }

  /** The existence queries for a list of candidates, one per candidate, in order. */
  function CheckEvents(table: string, ms: seq<Metadata>): (e: seq<Event>)
    ensures |e| == |ms|
    ensures forall k :: 0 <= k < |e| ==> e[k] == ExistsQuery(table, ms[k].entryId)
  {
    if ms == [] then [] else CheckEvents(table, ms[..|ms| - 1]) + [ExistsQuery(table, ms[|ms| - 1].entryId)]
  }

  /** What translating a list of articles one after the other produces. */
  datatype Batch = Batch(translations: seq<Translation>, next: nat, events: seq<Event>)

  /**
   * The translation loop of a pass: each article in order, the model's calls
   * numbered on from `start`; `next` is the number the following call gets.
   */
  function TranslateAll(reply: (nat, string) -> Reply, start: nat, ms: seq<Metadata>): (b: Batch)
    ensures |b.translations| == |ms|
  {
    if ms == [] then Batch([], start, [])
    else
      var p := TranslateAll(reply, start, ms[..|ms| - 1]);
      var t := Translate(reply, p.next, ms[|ms| - 1]);
      Batch(p.translations + [t], p.next + t.calls, p.events + t.events)
  }

  /**
   * The translation loop makes two to six model calls per article, and every
   * event it logs is a prompt.
   */
  lemma {:induction false} TranslateAllShape(reply: (nat, string) -> Reply, start: nat, ms: seq<Metadata>)
    ensures var b := TranslateAll(reply, start, ms);
      && start + 2 * |ms| <= b.next <= start + 6 * |ms|
      && |b.events| == b.next - start
      && forall i :: 0 <= i < |b.events| ==> b.events[i].PromptCall?
  {
    if ms != [] {
      var p := TranslateAll(reply, start, ms[..|ms| - 1]);
      TranslateAllShape(reply, start, ms[..|ms| - 1]);
      TranslateShape(reply, p.next, ms[|ms| - 1]);
    }
  }

  /** One more article: TranslateAll of a longer prefix extends the shorter one by that article's translation. */
  lemma TranslateAllStep(reply: (nat, string) -> Reply, start: nat, ms: seq<Metadata>, n: nat)
    requires n < |ms|
    ensures var p := TranslateAll(reply, start, ms[..n]);
      var t := Translate(reply, p.next, ms[n]);
      var q := TranslateAll(reply, start, ms[..n + 1]);
      q.translations == p.translations + [t] && q.next == p.next + t.calls && q.events == p.events + t.events
  {
    assert ms[..n + 1][..n] == ms[..n];
  }

  /** True when the articles hold, from the first on, the translations `ts`. */
  predicate TranslatedAs(arts: seq<Article>, ts: seq<Translation>)
    reads arts
  {
    && |ts| <= |arts|
    && forall k :: 0 <= k < |ts| ==> arts[k].cnTitle == Some(ts[k].cnTitle) && arts[k].cnSummary == Some(ts[k].cnSummary)
  }

  /** The rows built for translated articles. */
  function Rows(ms: seq<Metadata>, ts: seq<Translation>): (rows: seq<Row>)
    requires |ms| == |ts|
    ensures |rows| == |ms|
    ensures forall k :: 0 <= k < |ms| ==> rows[k] == ToRow(ms[k], ts[k].cnTitle, ts[k].cnSummary)
  {
    seq(|ms|, k requires 0 <= k < |ms| == |ts| => ToRow(ms[k], ts[k].cnTitle, ts[k].cnSummary))
  }

  /**
   * The last two phases of a pass, on the survivors `s` of the check phase:
   * translate each of them, then insert their rows as one batch.
   */
  function TranslateAndInsert(w: World, reply: (nat, string) -> Reply, accepts: (string, seq<Row>) -> bool, table: string, s: seq<Metadata>): World {
    var b := TranslateAll(reply, w.calls, s);
    var rows := Rows(s, b.translations);
    World(AfterInsert(w.tables, accepts, table, rows), b.next,
          w.events + b.events + [InsertBatch(table, |rows|, Commits(w.tables, accepts, table, rows))])
  }

  /**
   * `fetch_process_insert_articles` once the candidates `ms` are fetched: check
   * every candidate, then translate the survivors, then insert them as one batch.
   */
  function Process(w: World, reply: (nat, string) -> Reply, accepts: (string, seq<Row>) -> bool, table: string, ms: seq<Metadata>): (World, PassOutcome)
  {
    if ms == [] then (w, Completed(0))
    else if table !in w.tables then
      (World(w.tables, w.calls, w.events + [ExistsQuery(table, ms[0].entryId)]), Failed(NoSuchTable(table)))
    else
      var checked := World(w.tables, w.calls, w.events + CheckEvents(table, ms));
      var s := Survivors(w.tables[table], ms);
      if s == [] then (checked, Completed(0))
      else (TranslateAndInsert(checked, reply, accepts, table, s), Completed(|s|))
  }

  /** `fetch_process_insert_articles` on the fetched `records`. */
  function Pass(w: World, reply: (nat, string) -> Reply, accepts: (string, seq<Row>) -> bool, table: string, records: seq<Record>): (World, PassOutcome)
  {
    Process(w, reply, accepts, table, Metas(records))
  }

  // ---------------------------------------------------------------------------
  // Properties of the filter

  /** Every survivor is one of the candidates, and its entry id is not in the table. */
  lemma {:induction false} SurvivorsAreNew(rows: seq<Row>, ms: seq<Metadata>)
    ensures forall k :: 0 <= k < |Survivors(rows, ms)| ==> Survivors(rows, ms)[k] in ms && !HasEntry(rows, Survivors(rows, ms)[k].entryId)
  {
    if ms != [] {
      SurvivorsAreNew(rows, ms[..|ms| - 1]);
      forall x | x in ms[..|ms| - 1] ensures x in ms {
      }
    }
  }

  /** Filtering a concatenation filters each part: the survivors keep fetch order. */
  lemma {:induction false} SurvivorsConcat(rows: seq<Row>, a: seq<Metadata>, b: seq<Metadata>)
    ensures Survivors(rows, a + b) == Survivors(rows, a) + Survivors(rows, b)
    decreases |b|
  {
    if b == [] {
      AppendEmpty(a);
      AppendEmpty(Survivors(rows, a));
    } else {
      var init, last := b[..|b| - 1], b[|b| - 1];
      SurvivorsConcat(rows, a, init);
      DropLastOfConcat(a, b);
      AppendAssoc(Survivors(rows, a), Survivors(rows, init), if HasEntry(rows, last.entryId) then [] else [last]);
    }
  }

  /** Every candidate whose entry id is not in the table survives. */
  lemma {:induction false} NewCandidatesSurvive(rows: seq<Row>, ms: seq<Metadata>, k: nat)
    requires k < |ms| && !HasEntry(rows, ms[k].entryId)
    ensures ms[k] in Survivors(rows, ms)
  {
    if k < |ms| - 1 {
      NewCandidatesSurvive(rows, ms[..|ms| - 1], k);
    }
  }

  /** Two fetched candidates with the same entry id, neither in the table, both survive. */
  lemma DuplicatesBothSurvive(rows: seq<Row>, m: Metadata, n: Metadata)
    requires m.entryId == n.entryId && !HasEntry(rows, m.entryId)
    ensures Survivors(rows, [m, n]) == [m, n]
  {
    assert [m, n][..1] == [m];
    assert [m][..0] == [];
  }

  /** No candidate survives when every one of them is already in the table. */
  lemma {:induction false} AllKnownNoSurvivors(rows: seq<Row>, ms: seq<Metadata>)
    requires forall k :: 0 <= k < |ms| ==> HasEntry(rows, ms[k].entryId)
    ensures Survivors(rows, ms) == []
  {
    if ms != [] {
      AllKnownNoSurvivors(rows, ms[..|ms| - 1]);
    }
  }

  // ---------------------------------------------------------------------------
  // Properties of a pass

  /** An empty fetch makes no existence check, no model call and no insert. */
  lemma EmptyFetchDoesNothing(w: World, reply: (nat, string) -> Reply, accepts: (string, seq<Row>) -> bool, table: string)
    ensures Pass(w, reply, accepts, table, []) == (w, Completed(0))
  {
  }

  /** When nothing survives the filter, the pass only makes its existence checks. */
  lemma NothingNewOnlyChecks(w: World, reply: (nat, string) -> Reply, accepts: (string, seq<Row>) -> bool, table: string, records: seq<Record>)
    requires records != [] && table in w.tables
    requires Survivors(w.tables[table], Metas(records)) == []
    ensures Pass(w, reply, accepts, table, records)
         == (World(w.tables, w.calls, w.events + CheckEvents(table, Metas(records))), Completed(0))
  {
  }

  /** With the table missing, the first existence check raises and nothing else happens. */
  lemma MissingTableFails(w: World, reply: (nat, string) -> Reply, accepts: (string, seq<Row>) -> bool, table: string, records: seq<Record>)
    requires records != [] && table !in w.tables
    ensures Pass(w, reply, accepts, table, records).1 == Failed(NoSuchTable(table))
    ensures Pass(w, reply, accepts, table, records).0.tables == w.tables
    ensures Pass(w, reply, accepts, table, records).0.calls == w.calls
  {
  }

  /** True when every existence check in `e` comes before every model call in it. */
  predicate ChecksFirst(e: seq<Event>) {
    forall i, j :: 0 <= i < j < |e| && e[i].PromptCall? ==> !e[j].ExistsQuery?
  }

  /** What a pass appends after `pre` is the rest of the log. */
  lemma LogSuffix(pre: seq<Event>, c: seq<Event>, p: seq<Event>, l: seq<Event>)
    ensures (pre + c + p + l)[..|pre|] == pre
    ensures (pre + c + p + l)[|pre|..] == c + p + l
  {
  }

  /** A log made of checks, then model calls, then one insert keeps its checks first. */
  lemma ChecksThenPrompts(c: seq<Event>, p: seq<Event>, last: Event)
    requires forall k :: 0 <= k < |c| ==> c[k].ExistsQuery?
    requires forall k :: 0 <= k < |p| ==> p[k].PromptCall?
    requires last.InsertBatch?
    ensures ChecksFirst(c + p + [last])
  {
    var e := c + p + [last];
    forall i, j | 0 <= i < j < |e| && e[i].PromptCall?
      ensures !e[j].ExistsQuery?
    {
      if j < |e| - 1 {
        assert e[j] == p[j - |c|];
      }
    }
  }

  /** True when a pass only appends to `pre`, and its own events keep their checks first. */
  predicate AppendsChecksFirst(pre: seq<Event>, e: seq<Event>) {
    |pre| <= |e| && e[..|pre|] == pre && ChecksFirst(e[|pre|..])
  }

  /** ChecksBeforePrompts for a pass that reaches the translation phase. */
  lemma ChecksBeforePromptsWhenTranslating(w: World, reply: (nat, string) -> Reply, accepts: (string, seq<Row>) -> bool, table: string, records: seq<Record>)
    requires records != [] && table in w.tables
    requires Survivors(w.tables[table], Metas(records)) != []
    ensures AppendsChecksFirst(w.events, Pass(w, reply, accepts, table, records).0.events)
  {
    var s := Survivors(w.tables[table], Metas(records));
    var b := TranslateAll(reply, w.calls, s);
    var c := CheckEvents(table, Metas(records));
    var rows := Rows(s, b.translations);
    var last := InsertBatch(table, |rows|, Commits(w.tables, accepts, table, rows));
    TranslateAllShape(reply, w.calls, s);
    LogSuffix(w.events, c, b.events, [last]);
    ChecksThenPrompts(c, b.events, last);
  }

  /**
   * A pass only appends to the log, and every existence check it makes comes
   * before every model call it makes.
   */
  lemma ChecksBeforePrompts(w: World, reply: (nat, string) -> Reply, accepts: (string, seq<Row>) -> bool, table: string, records: seq<Record>)
    ensures AppendsChecksFirst(w.events, Pass(w, reply, accepts, table, records).0.events)
  {
    var e := Pass(w, reply, accepts, table, records).0.events;
    var ms := Metas(records);
    if ms == [] {
      assert e[|w.events|..] == [];
    } else if table !in w.tables {
      assert e[|w.events|..] == [ExistsQuery(table, ms[0].entryId)];
    } else if Survivors(w.tables[table], ms) == [] {
      assert e[|w.events|..] == CheckEvents(table, ms);
    } else {
      ChecksBeforePromptsWhenTranslating(w, reply, accepts, table, records);
    }
  }

  /**
   * True when `after` is `before` with the rows for `s` appended to `table`,
   * or with nothing changed; no other table changes in either case.
   */
  predicate InsertedOrUnchanged(before: Tables, after: Tables, table: string, s: seq<Metadata>)
    requires table in before
  {
    && after.Keys == before.Keys
    && (forall t :: t in before && t != table ==> after[t] == before[t])
    && (after[table] == before[table]
        || (|after[table]| == |before[table]| + |s|
            && after[table][..|before[table]|] == before[table]
            && forall k :: 0 <= k < |s| ==> after[table][|before[table]| + k].entryId == s[k].entryId))
  }

  /** The translate and insert phases make two to six calls per survivor and insert all survivors or none. */
  lemma TranslateAndInsertInsertsAll(w: World, reply: (nat, string) -> Reply, accepts: (string, seq<Row>) -> bool, table: string, s: seq<Metadata>)
    requires table in w.tables
    ensures var w' := TranslateAndInsert(w, reply, accepts, table, s);
      && w.calls + 2 * |s| <= w'.calls <= w.calls + 6 * |s|
      && InsertedOrUnchanged(w.tables, w'.tables, table, s)
  {
    var b := TranslateAll(reply, w.calls, s);
    TranslateAllShape(reply, w.calls, s);
    var rows := Rows(s, b.translations);
    AllOrNothing(w.tables, accepts, table, rows);
    var after := AfterInsert(w.tables, accepts, table, rows);
    if Commits(w.tables, accepts, table, rows) {
      assert after[table] == w.tables[table] + rows;
      assert after[table][..|w.tables[table]|] == w.tables[table];
    }
  }

  /**
   * A completed pass translates every survivor exactly once (two to six model
   * calls each) and then inserts exactly the survivors, in fetch order, as one
   * batch that is committed entirely or not at all.
   */
  lemma PassInsertsExactlySurvivors(w: World, reply: (nat, string) -> Reply, accepts: (string, seq<Row>) -> bool, table: string, records: seq<Record>)
    requires table in w.tables
    ensures var (w', outcome) := Pass(w, reply, accepts, table, records);
      var s := Survivors(w.tables[table], Metas(records));
      && outcome == Completed(|s|)
      && w.calls + 2 * |s| <= w'.calls <= w.calls + 6 * |s|
      && InsertedOrUnchanged(w.tables, w'.tables, table, s)
  {
    var ms := Metas(records);
    var s := Survivors(w.tables[table], ms);
    if ms != [] && s != [] {
      TranslateAndInsertInsertsAll(World(w.tables, w.calls, w.events + CheckEvents(table, ms)), reply, accepts, table, s);
    }
  }

  /** Whatever the model answers, a pass with survivors ends with one insert batch holding every survivor. */
  lemma PassSubmitsEverySurvivor(w: World, reply: (nat, string) -> Reply, accepts: (string, seq<Row>) -> bool, table: string, records: seq<Record>)
    requires table in w.tables
    requires Survivors(w.tables[table], Metas(records)) != []
    ensures var w' := Pass(w, reply, accepts, table, records).0;
      && |w'.events| > |w.events|
      && w'.events[|w'.events| - 1].InsertBatch?
      && w'.events[|w'.events| - 1].table == table
      && w'.events[|w'.events| - 1].count == |Survivors(w.tables[table], Metas(records))|
  {
    PassEndsWithBatch(w, reply, accepts, table, records);
  }

  /** A pass with survivors is the check phase followed by TranslateAndInsert of the survivors. */
  lemma PassEndsWithBatch(w: World, reply: (nat, string) -> Reply, accepts: (string, seq<Row>) -> bool, table: string, records: seq<Record>)
    requires table in w.tables
    requires Survivors(w.tables[table], Metas(records)) != []
    ensures var ms := Metas(records); var s := Survivors(w.tables[table], ms);
      Pass(w, reply, accepts, table, records)
        == (TranslateAndInsert(World(w.tables, w.calls, w.events + CheckEvents(table, ms)), reply, accepts, table, s), Completed(|s|))
  {
    var ms := Metas(records);
    assert ms != [];
  }

  /** The rows of articles both of whose translations failed: every column from the article, the sentinel in both translation columns. */
  function SentinelRows(s: seq<Metadata>): (rows: seq<Row>)
    ensures |rows| == |s|
    ensures forall k :: 0 <= k < |s| ==> rows[k].entryId == s[k].entryId && rows[k].cnTitle == Str(Sentinel) && rows[k].cnSummary == Str(Sentinel)
  {
    seq(|s|, k requires 0 <= k < |s| => ToRow(s[k], Str(Sentinel), Str(Sentinel)))
  }

  /** True when every translation holds the sentinel in both fields. */
  predicate AllSentinel(ts: seq<Translation>) {
    forall k :: 0 <= k < |ts| ==> ts[k].cnTitle == Str(Sentinel) && ts[k].cnSummary == Str(Sentinel)
  }

  /** With a model that always raises, every article of the translation loop ends with the sentinel in both fields. */
  lemma {:induction false} TranslateAllAlwaysRaising(reply: (nat, string) -> Reply, start: nat, ms: seq<Metadata>)
    requires forall n: nat, msg: string :: reply(n, msg) == Raised
    ensures AllSentinel(TranslateAll(reply, start, ms).translations)
  {
    if ms != [] {
      var p := TranslateAll(reply, start, ms[..|ms| - 1]);
      TranslateAllAlwaysRaising(reply, start, ms[..|ms| - 1]);
      AlwaysRaisingModel(reply, p.next, ms[|ms| - 1]);
      var t := Translate(reply, p.next, ms[|ms| - 1]);
      assert TranslateAll(reply, start, ms).translations == p.translations + [t];
    }
  }

  /** Articles whose translations all hold the sentinel become the sentinel rows. */
  lemma SentinelRowsOf(s: seq<Metadata>, ts: seq<Translation>)
    requires |s| == |ts| && AllSentinel(ts)
    ensures Rows(s, ts) == SentinelRows(s)
  {
    var rows, expected := Rows(s, ts), SentinelRows(s);
    forall k | 0 <= k < |s| ensures rows[k] == expected[k] {
      assert rows[k] == ToRow(s[k], ts[k].cnTitle, ts[k].cnSummary);
    }
  }

  /**
   * A failing chat model does not block ingestion: when every model call
   * raises, a pass still completes and submits every survivor, carrying the
   * sentinel in both translation columns, as one batch.
   */
  lemma TranslationNeverBlocksIngestion(w: World, reply: (nat, string) -> Reply, accepts: (string, seq<Row>) -> bool, table: string, records: seq<Record>)
    requires table in w.tables
    requires forall n: nat, msg: string :: reply(n, msg) == Raised
    ensures var (w', outcome) := Pass(w, reply, accepts, table, records);
      var s := Survivors(w.tables[table], Metas(records));
      var committed := Commits(w.tables, accepts, table, SentinelRows(s));
      s != [] ==>
        && outcome == Completed(|s|)
        && w'.events[|w'.events| - 1] == InsertBatch(table, |s|, committed)
        && w'.tables == (if committed then w.tables[table := w.tables[table] + SentinelRows(s)] else w.tables)
  {
    var ms := Metas(records);
    var s := Survivors(w.tables[table], ms);
    if s != [] {
      PassEndsWithBatch(w, reply, accepts, table, records);
      var checked := World(w.tables, w.calls, w.events + CheckEvents(table, ms));
      var b := TranslateAll(reply, checked.calls, s);
      TranslateAllAlwaysRaising(reply, checked.calls, s);
      var rows := Rows(s, b.translations);
      SentinelRowsOf(s, b.translations);
      assert TranslateAndInsert(checked, reply, accepts, table, s)
          == World(AfterInsert(w.tables, accepts, table, rows), b.next,
                   checked.events + b.events + [InsertBatch(table, |rows|, Commits(w.tables, accepts, table, rows))]);
    }
  }

  /** A pass never removes an article: every entry present before it answers the existence check after it. */
  lemma PassKeepsEntries(w: World, reply: (nat, string) -> Reply, accepts: (string, seq<Row>) -> bool, table: string, records: seq<Record>, t: string, id: string)
    requires Exists(w.tables, t, id) == Ok(true)
    ensures Exists(Pass(w, reply, accepts, table, records).0.tables, t, id) == Ok(true)
  {
    var ms := Metas(records);
    if ms != [] && table in w.tables {
      var s := Survivors(w.tables[table], ms);
      if s != [] {
        var checked := World(w.tables, w.calls, w.events + CheckEvents(table, ms));
        var b := TranslateAll(reply, checked.calls, s);
        InsertKeepsEntries(w.tables, accepts, table, Rows(s, b.translations), t, id);
      }
    }
  }

  /**
   * Running a pass again over the same fetch, after one that committed its
   * batch, only repeats the existence checks: every candidate is now known.
   */
  lemma RepeatedPassAddsNothing(w: World, reply: (nat, string) -> Reply, accepts: (string, seq<Row>) -> bool, table: string, records: seq<Record>)
    requires table in w.tables
    requires var ms := Metas(records); var s := Survivors(w.tables[table], ms);
      s != [] ==> Commits(w.tables, accepts, table, Rows(s, TranslateAll(reply, w.calls, s).translations))
    ensures var w1 := Pass(w, reply, accepts, table, records).0;
      Pass(w1, reply, accepts, table, records).0 == World(w1.tables, w1.calls, w1.events + CheckEvents(table, Metas(records)))
  {
    var ms := Metas(records);
    var rows := w.tables[table];
    var s := Survivors(rows, ms);
    var w1 := Pass(w, reply, accepts, table, records).0;
    if ms != [] {
      assert table in w1.tables;
      forall k | 0 <= k < |ms| ensures HasEntry(w1.tables[table], ms[k].entryId) {
        if HasEntry(rows, ms[k].entryId) {
          if s != [] {
            var b := TranslateAll(reply, w.calls, s);
            InsertKeepsEntries(w.tables, accepts, table, Rows(s, b.translations), table, ms[k].entryId);
          }
        } else {
          NewCandidatesSurvive(rows, ms, k);
          var b := TranslateAll(reply, w.calls, s);
          var batch := Rows(s, b.translations);
          var j :| 0 <= j < |s| && s[j] == ms[k];
          CommittedRowsExist(w.tables, accepts, table, batch, j);
        }
      }
      AllKnownNoSurvivors(w1.tables[table], ms);
    }
  }

  /** True when no two rows share an entry id. */
  predicate UniqueIds(rows: seq<Row>) {
    forall i, j :: 0 <= i < j < |rows| ==> rows[i].entryId != rows[j].entryId
  }

  /** True when no two candidates share an entry id. */
  predicate DistinctCandidates(ms: seq<Metadata>) {
    forall i, j :: 0 <= i < j < |ms| ==> ms[i].entryId != ms[j].entryId
  }

  /** Survivors of a fetch without repeated ids have distinct ids too. */
  lemma {:induction false} SurvivorsDistinct(rows: seq<Row>, ms: seq<Metadata>)
    requires DistinctCandidates(ms)
    ensures DistinctCandidates(Survivors(rows, ms))
  {
    if ms != [] {
      var init := ms[..|ms| - 1];
      SurvivorsDistinct(rows, init);
      SurvivorsAreNew(rows, init);
      var s := Survivors(rows, init);
      forall k | 0 <= k < |s| ensures s[k].entryId != ms[|ms| - 1].entryId {
        var i :| 0 <= i < |init| && init[i] == s[k];
      }
    }
  }

  /** Inserting new, distinct candidates into a table without repeated ids leaves it without repeated ids. */
  lemma TranslateAndInsertKeepsIdsUnique(w: World, reply: (nat, string) -> Reply, accepts: (string, seq<Row>) -> bool, table: string, s: seq<Metadata>)
    requires table in w.tables && UniqueIds(w.tables[table])
    requires DistinctCandidates(s)
    requires forall k :: 0 <= k < |s| ==> !HasEntry(w.tables[table], s[k].entryId)
    ensures table in TranslateAndInsert(w, reply, accepts, table, s).tables
    ensures UniqueIds(TranslateAndInsert(w, reply, accepts, table, s).tables[table])
  {
    var rows := w.tables[table];
    var b := TranslateAll(reply, w.calls, s);
    var batch := Rows(s, b.translations);
    if Commits(w.tables, accepts, table, batch) {
      var t := rows + batch;
      forall i, j | 0 <= i < j < |t| ensures t[i].entryId != t[j].entryId {
        if j >= |rows| && i < |rows| {
          assert t[j].entryId == s[j - |rows|].entryId;
          assert t[i] == rows[i];
        }
      }
    }
  }

  /**
   * When the table has no repeated entry ids and neither has the fetch, the
   * table still has none after the pass; duplicates can only come from one
   * fetch returning the same id twice.
   */
  lemma PassKeepsIdsUnique(w: World, reply: (nat, string) -> Reply, accepts: (string, seq<Row>) -> bool, table: string, records: seq<Record>)
    requires table in w.tables && UniqueIds(w.tables[table])
    requires DistinctCandidates(Metas(records))
    ensures table in Pass(w, reply, accepts, table, records).0.tables
    ensures UniqueIds(Pass(w, reply, accepts, table, records).0.tables[table])
  {
    var ms := Metas(records);
    var s := Survivors(w.tables[table], ms);
    if ms != [] && s != [] {
      SurvivorsDistinct(w.tables[table], ms);
      SurvivorsAreNew(w.tables[table], ms);
      TranslateAndInsertKeepsIdsUnique(World(w.tables, w.calls, w.events + CheckEvents(table, ms)), reply, accepts, table, s);
    }
  }

  // ---------------------------------------------------------------------------
  // The pass as the job runs it

  /** True when no article object occurs twice. */
  predicate Distinct(arts: seq<Article>) {
    forall j, k :: 0 <= j < k < |arts| ==> arts[j] != arts[k]
  }

  /** Articles built one per result, in order, have the metadata of those results. */
  lemma MetasOfNormalized(arts: seq<Article>, records: seq<Record>)
    requires |arts| == |records|
    requires forall k :: 0 <= k < |arts| ==> arts[k].meta == Normalize(records[k])
    ensures MetasOf(arts) == Metas(records)
  {
  }

  /** One turn of the loop of `fetch_recent_articles`: a new `Article` for `r`, appended to `articles`. */
  method AppendArticle(articles: seq<Article>, r: Record) returns (articles': seq<Article>)
    requires Distinct(articles)
    ensures |articles'| == |articles| + 1 && articles'[..|articles|] == articles
    ensures var a := articles'[|articles|];
      fresh(a) && a.meta == Normalize(r) && a.cnTitle.None? && a.cnSummary.None?
    ensures Distinct(articles')
  {
    var article := new Article(r);
    articles' := articles + [article];
  }

  /**
   * `fetch_recent_articles`: one new `Article` per result the arXiv client
   * yields, in the order it yields them.
   */
  method FetchRecentArticles(results: seq<Record>) returns (articles: seq<Article>)
    ensures MetasOf(articles) == Metas(results)
    ensures forall k :: 0 <= k < |articles| ==> fresh(articles[k]) && articles[k].cnTitle.None? && articles[k].cnSummary.None?
    ensures Distinct(articles)
  {
    articles := [];
    var i := 0;
    while i < |results|
      invariant 0 <= i <= |results| && |articles| == i
      invariant forall k :: 0 <= k < i ==> articles[k].meta == Normalize(results[k])
      invariant forall k :: 0 <= k < i ==> fresh(articles[k]) && articles[k].cnTitle.None? && articles[k].cnSummary.None?
      invariant Distinct(articles)
    {
      ghost var before := articles;
      articles := AppendArticle(articles, results[i]);
      assert forall k :: 0 <= k < i ==> articles[k] == before[k];
      i := i + 1;
    }
    MetasOfNormalized(articles, results);
  }

  /** The check phase on one more candidate extends its log and its survivors by that candidate. */
  lemma CheckStep(rows: seq<Row>, table: string, ms: seq<Metadata>, i: nat)
    requires i < |ms|
    ensures CheckEvents(table, ms[..i + 1]) == CheckEvents(table, ms[..i]) + [ExistsQuery(table, ms[i].entryId)]
    ensures Survivors(rows, ms[..i + 1]) == Survivors(rows, ms[..i]) + (if HasEntry(rows, ms[i].entryId) then [] else [ms[i]])
  {
    assert ms[..i + 1][..i] == ms[..i];
  }

  /** The metadata of one more article. */
  lemma MetasOfSnoc(arts: seq<Article>, a: Article)
    ensures MetasOf(arts + [a]) == MetasOf(arts) + [a.meta]
  {
  }

  /** True when `kept` lists elements of `arts` below index `bound`, at the increasing indices `from`. */
  ghost predicate PicksBelow(arts: seq<Article>, kept: seq<Article>, from: seq<nat>, bound: nat) {
    && |from| == |kept|
    && (forall k :: 0 <= k < |kept| ==> from[k] < bound && from[k] < |arts| && kept[k] == arts[from[k]])
    && (forall j, k :: 0 <= j < k < |from| ==> from[j] < from[k])
  }

  /** True when `kept` lists elements of `arts` at the increasing indices `from`. */
  ghost predicate Picks(arts: seq<Article>, kept: seq<Article>, from: seq<nat>) {
    PicksBelow(arts, kept, from, |arts|)
  }

  /** Passing over the element at `i`, keeping it or not, extends a pick below `i` to a pick below `i + 1`. */
  lemma PickStep(arts: seq<Article>, kept: seq<Article>, from: seq<nat>, i: nat)
    requires i < |arts| && PicksBelow(arts, kept, from, i)
    ensures PicksBelow(arts, kept, from, i + 1)
    ensures PicksBelow(arts, kept + [arts[i]], from + [i], i + 1)
  {
  }

  /** Picking from a list without repeated objects gives a list without repeated objects. */
  lemma PicksDistinct(arts: seq<Article>, kept: seq<Article>, from: seq<nat>)
    requires Picks(arts, kept, from) && Distinct(arts)
    ensures Distinct(kept)
  {
    forall j, k | 0 <= j < k < |kept| ensures kept[j] != kept[k] {
      assert from[j] < from[k];
    }
  }

  /** One turn of the filter loop keeps its survivors and its picks in step with one more candidate. */
  lemma FilterStep(rows: seq<Row>, arts: seq<Article>, kept: seq<Article>, from: seq<nat>, i: nat)
    requires i < |arts| && PicksBelow(arts, kept, from, i)
    requires MetasOf(kept) == Survivors(rows, MetasOf(arts)[..i])
    ensures HasEntry(rows, arts[i].meta.entryId) ==>
      PicksBelow(arts, kept, from, i + 1) && MetasOf(kept) == Survivors(rows, MetasOf(arts)[..i + 1])
    ensures !HasEntry(rows, arts[i].meta.entryId) ==>
      PicksBelow(arts, kept + [arts[i]], from + [i], i + 1) && MetasOf(kept + [arts[i]]) == Survivors(rows, MetasOf(arts)[..i + 1])
  {
    CheckStep(rows, "", MetasOf(arts), i);
    PickStep(arts, kept, from, i);
    MetasOfSnoc(kept, arts[i]);
  }

  /**
   * The filter loop of `fetch_process_insert_articles`: one existence check
   * per fetched article, in order, keeping those not yet in the table. The
   * first check raises when the table is missing.
   */
  method FilterNewArticles(db: Database, articles: seq<Article>, table: string) returns (r: Result<seq<Article>, DbError>, ghost from: seq<nat>)
    modifies db.log
    ensures table !in db.tables && articles != [] ==>
      && r == Err(NoSuchTable(table))
      && db.log.events == old(db.log.events) + [ExistsQuery(table, articles[0].meta.entryId)]
    ensures table in db.tables || articles == [] ==>
      && r.Ok?
      && db.log.events == old(db.log.events) + CheckEvents(table, MetasOf(articles))
    ensures table in db.tables ==> r.Ok? && MetasOf(r.value) == Survivors(db.tables[table], MetasOf(articles))
    ensures r.Ok? ==> Picks(articles, r.value, from)
  {
    ghost var ms := MetasOf(articles);
    var kept: seq<Article> := [];
    from := [];
    var i := 0;
    while i < |articles|
      invariant 0 <= i <= |articles|
      invariant table !in db.tables ==> i == 0
      invariant db.log.events == old(db.log.events) + CheckEvents(table, ms[..i])
      invariant table in db.tables ==> MetasOf(kept) == Survivors(db.tables[table], ms[..i])
      invariant PicksBelow(articles, kept, from, i)
    {
      var found := db.ArticleExists(articles[i].meta.entryId, table);
      if found.Err? {
        assert ms[..0] == [];
        return Err(found.error), from;
      }
      CheckStep(db.tables[table], table, ms, i);
      FilterStep(db.tables[table], articles, kept, from, i);
      if !found.value {
        kept, from := kept + [articles[i]], from + [i];
      }
      i := i + 1;
    }
    assert ms[..i] == ms;
    return Ok(kept), from;
  }

  /**
   * One turn of the translation loop: `article.gpt_CN_translate(model)` on
   * the article at `num`, extending the batch `b` of the articles before it.
   */
  method TranslateNext(model: Translator, articles: seq<Article>, num: nat, ghost start: nat, ghost log0: seq<Event>, ghost b: Batch)
    returns (ghost b': Batch)
    requires num < |articles| && Distinct(articles)
    requires b == TranslateAll(model.reply, start, MetasOf(articles)[..num])
    requires model.calls == b.next && model.log.events == log0 + b.events
    requires TranslatedAs(articles, b.translations)
    modifies model, model.log, articles[num]
    ensures b' == TranslateAll(model.reply, start, MetasOf(articles)[..num + 1])
    ensures model.calls == b'.next && model.log.events == log0 + b'.events
    ensures TranslatedAs(articles, b'.translations)
  {
    ghost var ms := MetasOf(articles);
    ghost var t := Translate(model.reply, b.next, ms[num]);
    assert articles[num].meta == ms[num];
    label before:
    articles[num].GptCnTranslate(model);
    assert model.log.events == (log0 + b.events) + t.events;
    TranslateAllStep(model.reply, start, ms, num);
    AppendAssoc(log0, b.events, t.events);
    b' := TranslateAll(model.reply, start, ms[..num + 1]);
    forall k | 0 <= k <= num
      ensures articles[k].cnTitle == Some(b'.translations[k].cnTitle) && articles[k].cnSummary == Some(b'.translations[k].cnSummary)
    {
      if k < num {
        assert articles[k] != articles[num];
        assert articles[k].cnTitle == old@before(articles[k].cnTitle) && articles[k].cnSummary == old@before(articles[k].cnSummary);
        assert b'.translations[k] == b.translations[k];
      }
    }
  }

  /**
   * The translation loop of `fetch_process_insert_articles`: each article in
   * turn, counting them in `num`.
   */
  method TranslateEach(model: Translator, articles: seq<Article>) returns (num: nat)
    requires Distinct(articles)
    modifies model, model.log, articles
    ensures num == |articles|
    ensures var b := TranslateAll(model.reply, old(model.calls), MetasOf(articles));
      && model.calls == b.next
      && model.log.events == old(model.log.events) + b.events
      && TranslatedAs(articles, b.translations)
  {
    ghost var ms := MetasOf(articles);
    ghost var start := model.calls;
    ghost var b := TranslateAll(model.reply, start, []);
    assert ms[..0] == [];
    num := 0;
    while num < |articles|
      invariant 0 <= num <= |articles|
      invariant b == TranslateAll(model.reply, start, ms[..num])
      invariant model.calls == b.next
      invariant model.log.events == old(model.log.events) + b.events
      invariant TranslatedAs(articles, b.translations)
    {
      b := TranslateNext(model, articles, num, start, old(model.log.events), b);
      num := num + 1;
    }
    assert ms[..num] == ms;
  }

  /**
   * The `if insert_articles:` branch of `fetch_process_insert_articles`:
   * translate every article, then insert them all with
   * `insert_articles_to_database`.
   */
  method TranslateAndInsertArticles(db: Database, model: Translator, table: string, articles: seq<Article>) returns (num: nat)
    requires model.log == db.log && Distinct(articles)
    modifies db, model, db.log, articles
    ensures num == |articles|
    ensures var w' := TranslateAndInsert(World(old(db.tables), old(model.calls), old(db.log.events)), model.reply, db.accepts, table, MetasOf(articles));
      db.tables == w'.tables && model.calls == w'.calls && db.log.events == w'.events
  {
    ghost var w := World(db.tables, model.calls, db.log.events);
    ghost var ms := MetasOf(articles);
    num := TranslateEach(model, articles);
    ghost var b := TranslateAll(model.reply, w.calls, ms);
    ghost var rows := Rows(ms, b.translations);
    ghost var translated := db.log.events;
    assert db.tables == w.tables;
    assert Translated(articles);
    assert Records(articles) == rows;
    var committed := InsertArticlesToDatabase(db, articles, table);
    assert committed == Commits(w.tables, db.accepts, table, rows);
    assert db.tables == AfterInsert(w.tables, db.accepts, table, rows);
    assert db.log.events == translated + [InsertBatch(table, |rows|, committed)];
  }

  /**
   * The `if insert_articles:` test of `fetch_process_insert_articles`: the new
   * articles are translated and inserted, and nothing happens when there are none.
   */
  method InsertNewArticles(db: Database, model: Translator, table: string, kept: seq<Article>) returns (outcome: PassOutcome)
    requires model.log == db.log && Distinct(kept)
    modifies db, model, db.log, kept
    ensures outcome == Completed(|kept|)
    ensures kept == [] ==> db.tables == old(db.tables) && model.calls == old(model.calls) && db.log.events == old(db.log.events)
    ensures kept != [] ==>
      var w' := TranslateAndInsert(World(old(db.tables), old(model.calls), old(db.log.events)), model.reply, db.accepts, table, MetasOf(kept));
      db.tables == w'.tables && model.calls == w'.calls && db.log.events == w'.events
  {
    if |kept| > 0 {
      var num := TranslateAndInsertArticles(db, model, table, kept);
      outcome := Completed(num);
    } else {
      outcome := Completed(0);
    }
  }

  /**
   * `fetch_process_insert_articles` once `articles`, the articles built from
   * `results`, are at hand: the existence checks, then the new articles.
   */
  method ProcessArticles(db: Database, model: Translator, table: string, articles: seq<Article>) returns (outcome: PassOutcome)
    requires model.log == db.log && Distinct(articles)
    modifies db, model, db.log, articles
    ensures var p := Process(World(old(db.tables), old(model.calls), old(db.log.events)), model.reply, db.accepts, table, MetasOf(articles));
      db.tables == p.0.tables && model.calls == p.0.calls && db.log.events == p.0.events && outcome == p.1
  {
    if |articles| == 0 {
      return Completed(0);
    }
    var filtered, from := FilterNewArticles(db, articles, table);
    if filtered.Err? {
      return Failed(filtered.error);
    }
    var insertArticles := filtered.value;
    PicksDistinct(articles, insertArticles, from);
    outcome := InsertNewArticles(db, model, table, insertArticles);
  }

  /**
   * `fetch_process_insert_articles(category, table_name, max_results)` on the
   * results `results` of the arXiv query. The database and the model share
   * one event log.
   */
  method FetchProcessInsertArticles(db: Database, model: Translator, table: string, results: seq<Record>) returns (outcome: PassOutcome)
    requires model.log == db.log
    modifies db, model, db.log
    ensures var p := Pass(World(old(db.tables), old(model.calls), old(db.log.events)), model.reply, db.accepts, table, results);
      db.tables == p.0.tables && model.calls == p.0.calls && db.log.events == p.0.events && outcome == p.1
  {
    var articles := FetchRecentArticles(results);
    outcome := ProcessArticles(db, model, table, articles);
  }
}
