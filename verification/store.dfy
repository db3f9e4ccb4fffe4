/**
 * `arxiv_auto.py`: the category tables as the ingestion job sees them,
 * through `Database.article_exists` and `insert_articles_to_database`.
 *
 * The MySQL server is a `Database` object holding every table's rows in
 * insertion order. Whether a batch insert raises a database `Error` on an
 * existing table (a constraint, a lost connection) is decided by the oracle
 * `accepts`; an insert into a missing table always raises.
 */
module Store {
  import opened Wrappers
  import opened Articles

  /** The tables of the database: table name to rows. */
  type Tables = map<string, seq<Row>>

  /** The database error that escapes `article_exists`: the query names a table that does not exist. */
  datatype DbError = NoSuchTable(table: string)

  /** True when some row of `rows` has the entry id `entryId`. */
  predicate HasEntry(rows: seq<Row>, entryId: string) {
    exists i :: 0 <= i < |rows| && rows[i].entryId == entryId
  }

  /** The answer of `article_exists(entry_id, table_name)`: `COUNT(1) > 0`, or the error when the table is missing. */
  function Exists(tables: Tables, table: string, entryId: string): (r: Result<bool, DbError>)
    ensures r.Err? <==> table !in tables
    ensures r.Err? ==> r.error == NoSuchTable(table)
    ensures r.Ok? ==> (r.value <==> HasEntry(tables[table], entryId))
  {
    if table !in tables then Err(NoSuchTable(table)) else Ok(HasEntry(tables[table], entryId))
  }

  /** True when `executemany` of `batch` into `table` succeeds, so that `conn.commit()` is reached. */
  predicate Commits(tables: Tables, accepts: (string, seq<Row>) -> bool, table: string, batch: seq<Row>) {
    table in tables && accepts(table, batch)
  }

  /** The tables after inserting `batch` into `table`: all of it is committed, or the rollback leaves everything as it was. */
  function AfterInsert(tables: Tables, accepts: (string, seq<Row>) -> bool, table: string, batch: seq<Row>): (t: Tables)
    ensures Commits(tables, accepts, table, batch) ==> t == tables[table := tables[table] + batch]
    ensures !Commits(tables, accepts, table, batch) ==> t == tables
  {
    if Commits(tables, accepts, table, batch) then tables[table := tables[table] + batch] else tables
  }

  /** The batch is all or nothing: the table either gains exactly the batch at its end or is unchanged, and no other table changes. */
  lemma AllOrNothing(tables: Tables, accepts: (string, seq<Row>) -> bool, table: string, batch: seq<Row>)
    ensures var t := AfterInsert(tables, accepts, table, batch);
      && t.Keys == tables.Keys
      && (forall other :: other in tables && other != table ==> t[other] == tables[other])
      && (table in tables ==> t[table] == tables[table] + batch || t[table] == tables[table])
  {
  }

  /** After a committed insert every row of the batch answers the existence check. */
  lemma CommittedRowsExist(tables: Tables, accepts: (string, seq<Row>) -> bool, table: string, batch: seq<Row>, k: nat)
    requires Commits(tables, accepts, table, batch) && k < |batch|
    ensures Exists(AfterInsert(tables, accepts, table, batch), table, batch[k].entryId) == Ok(true)
  {
    var rows := AfterInsert(tables, accepts, table, batch)[table];
    assert rows[|tables[table]| + k] == batch[k];
  }

  /** A row that answered the existence check still does after any insert. */
  lemma InsertKeepsEntries(tables: Tables, accepts: (string, seq<Row>) -> bool, table: string, batch: seq<Row>, t: string, id: string)
    requires Exists(tables, t, id) == Ok(true)
    ensures Exists(AfterInsert(tables, accepts, table, batch), t, id) == Ok(true)
  {
    var rows := tables[t];
    var i :| 0 <= i < |rows| && rows[i].entryId == id;
    assert AfterInsert(tables, accepts, table, batch)[t][i] == rows[i];
  }

  /** The MySQL database the job connects to. */
  class Database {
    var tables: Tables
    const accepts: (string, seq<Row>) -> bool
    const log: Log

    constructor(tables: Tables, accepts: (string, seq<Row>) -> bool, log: Log)
      ensures this.tables == tables && this.accepts == accepts && this.log == log
    {
      this.tables := tables;
      this.accepts := accepts;
      this.log := log;
    }

    /** `article_exists(entry_id, table_name)`: one COUNT query; the tables do not change. */
    method ArticleExists(entryId: string, table: string) returns (r: Result<bool, DbError>)
      modifies log
      ensures r == Exists(tables, table, entryId)
      ensures log.events == old(log.events) + [ExistsQuery(table, entryId)]
    {
      log.events := log.events + [ExistsQuery(table, entryId)];
      if table !in tables {
        return Err(NoSuchTable(table));
      }
      r := Ok(HasEntry(tables[table], entryId));
    }

    /** `cursor.executemany(insert_query, records)` followed by `conn.commit()`, or `conn.rollback()` on a database `Error`. */
    method ExecuteMany(table: string, records: seq<Row>) returns (committed: bool)
      modifies this, log
      ensures committed == Commits(old(tables), accepts, table, records)
      ensures tables == AfterInsert(old(tables), accepts, table, records)
      ensures log.events == old(log.events) + [InsertBatch(table, |records|, committed)]
    {
      committed := table in tables && accepts(table, records);
      if committed {
        tables := tables[table := tables[table] + records];
      }
      log.events := log.events + [InsertBatch(table, |records|, committed)];
    }
  }

  /**
   * `insert_articles_to_database(articles, table_name)`: one row per article,
   * in order, inserted as a single batch. A database error is caught and
   * rolled back, so the caller never sees it.
   */
  method InsertArticlesToDatabase(db: Database, articles: seq<Article>, table: string) returns (committed: bool)
    requires Translated(articles)
    modifies db, db.log
    ensures committed == Commits(old(db.tables), db.accepts, table, Records(articles))
    ensures db.tables == AfterInsert(old(db.tables), db.accepts, table, Records(articles))
    ensures db.log.events == old(db.log.events) + [InsertBatch(table, |articles|, committed)]
  {
    var records := Records(articles);
    committed := db.ExecuteMany(table, records);
  }
}
