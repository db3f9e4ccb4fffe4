/**
 * `arxiv_auto.py`: the `Article` record as the ingestion job builds it from
 * an arXiv result, its translation by a chat model with a bounded number of
 * retries, and the 14-column row it becomes in the category table.
 *
 * The arXiv client and the chat model are outside the model: a fetched result
 * arrives as a `Record` value, and the chat model is a `Translator` whose
 * answers come from an oracle function.
 */
module Articles {
  import opened Wrappers
  import opened Text

  // ---------------------------------------------------------------------------
  // What the job observably does, in order

  /** The steps of a pass that reach the database or the chat model. */
  datatype Event =
    | ExistsQuery(table: string, entryId: string)              // `SELECT COUNT(1) ... WHERE entry_id = %s`
    | PromptCall(message: string)                              // one call of `model.prompt`
    | InsertBatch(table: string, count: nat, committed: bool)  // one `executemany`, then commit or rollback

  /** The shared record of events; the database and the chat model both append to it. */
  class Log {
    var events: seq<Event>

    constructor()
      ensures events == []
    {
      events := [];
    }
  }

  /** `n` copies of `e`. */
  function Repeat(e: Event, n: nat): (r: seq<Event>)
    ensures |r| == n
    ensures forall i :: 0 <= i < n ==> r[i] == e
  {
    if n == 0 then [] else Repeat(e, n - 1) + [e]
  }

  // ---------------------------------------------------------------------------
  // Normalising a fetched result (Article.__init__)

  /** A Python value that is either a `str` or `None`; a translation can be either. */
  datatype Nullable = Null | Str(text: string)

  /** An `arxiv.Result.Author`. */
  datatype Author = Author(name: Option<string>)

  /** An `arxiv.Result.Link`. */
  datatype Link = Link(href: Option<string>, title: Option<string>, rel: Option<string>, contentType: Option<string>)

  /** One arXiv result as handed to `Article(...)`; any field may be missing. */
  datatype Record = Record(
    authors: Option<seq<Author>>,
    categories: Option<seq<string>>,
    comment: Option<string>,
    doi: Option<string>,
    entryId: Option<string>,
    journalRef: Option<string>,
    links: Option<seq<Link>>,
    primaryCategory: Option<string>,
    published: Option<string>,
    summary: Option<string>,
    title: Option<string>,
    updated: Option<string>)

  /** The attributes `Article.__init__` sets, with nothing missing. */
  datatype Metadata = Metadata(
    authors: seq<string>,
    categories: seq<string>,
    comment: string,
    doi: string,
    entryId: string,
    journalRef: string,
    links: seq<string>,
    primaryCategory: string,
    published: string,
    summary: string,
    title: string,
    updated: string)

  /** `x or ""` for a `str` that may be None; an empty string is falsy too and stays "". */
  function OrEmpty(x: Option<string>): (s: string)
    ensures x.None? ==> s == ""
    ensures x.Some? ==> s == x.value
  {
    match x
    case None => ""
    case Some(v) => v
  }

  /** `x or []` for a list that may be None. */
  function OrNone<T>(x: Option<seq<T>>): (s: seq<T>)
    ensures x.None? ==> s == []
    ensures x.Some? ==> s == x.value
  {
    match x
    case None => []
    case Some(v) => v
  }

  /** The four parts of a link in the order they are encoded. */
  function LinkParts(l: Link): seq<string> {
    [OrEmpty(l.href), OrEmpty(l.title), OrEmpty(l.rel), OrEmpty(l.contentType)]
  }

  /** The text `Article.__init__` stores for a link: `href,title,rel,content_type`. */
  function LinkText(l: Link): string {
    OrEmpty(l.href) + "," + OrEmpty(l.title) + "," + OrEmpty(l.rel) + "," + OrEmpty(l.contentType)
  }

  /** A link's text is its four parts joined with ",". */
  lemma LinkTextIsJoin(l: Link)
    ensures LinkText(l) == Join(",", LinkParts(l))
  {
    var p := LinkParts(l);
    assert Join(",", p[..2]) == p[0] + "," + p[1] by {
      assert p[..2][..1] == [p[0]];
    }
    assert Join(",", p[..3]) == p[0] + "," + p[1] + "," + p[2] by {
      assert p[..3][..2] == p[..2];
    }
  }

  /** The link text splits back into its four parts when no part contains a comma. */
  lemma {:induction false} LinkTextSplits(l: Link)
    requires forall i :: 0 <= i < 4 ==> ',' !in LinkParts(l)[i]
    ensures Split(LinkText(l), ',') == LinkParts(l)
  {
    LinkTextIsJoin(l);
    SplitJoin(LinkParts(l), ',');
  }

  /** A comma inside a link's href makes its text split into more than four parts, so the encoding is then ambiguous. */
  lemma {:induction false} CommaInHrefIsAmbiguous(l: Link)
    requires l.href.Some? && ',' in l.href.value
    ensures |Split(LinkText(l), ',')| > 4
  {
    var h, t, r, c := OrEmpty(l.href), OrEmpty(l.title), OrEmpty(l.rel), OrEmpty(l.contentType);
    SplitLength(LinkText(l), ',');
    CountConcat(h + "," + t + "," + r + ",", c, ',');
    CountConcat(h + "," + t + "," + r, ",", ',');
    CountConcat(h + "," + t + ",", r, ',');
    CountConcat(h + "," + t, ",", ',');
    CountConcat(h + ",", t, ',');
    CountConcat(h, ",", ',');
    CountPositive(h, ',');
    assert Count(",", ',') == 1;
  }

  /** The author names `Article.__init__` stores: each author's name, None as "". */
  function AuthorNames(authors: seq<Author>): (names: seq<string>)
    ensures |names| == |authors|
    ensures forall i :: 0 <= i < |authors| ==> names[i] == OrEmpty(authors[i].name)
  {
    if authors == [] then []
    else AuthorNames(authors[..|authors| - 1]) + [OrEmpty(authors[|authors| - 1].name)]
  }

  /** The link texts `Article.__init__` stores, one per link, in order. */
  function LinkTexts(links: seq<Link>): (texts: seq<string>)
    ensures |texts| == |links|
    ensures forall i :: 0 <= i < |links| ==> texts[i] == LinkText(links[i])
  {
    if links == [] then []
    else LinkTexts(links[..|links| - 1]) + [LinkText(links[|links| - 1])]
  }

  /** What `Article.__init__` stores for a fetched result. */
  function Normalize(r: Record): Metadata {
    Metadata(
      AuthorNames(OrNone(r.authors)),
      OrNone(r.categories),
      OrEmpty(r.comment),
      OrEmpty(r.doi),
      OrEmpty(r.entryId),
      OrEmpty(r.journalRef),
      LinkTexts(OrNone(r.links)),
      OrEmpty(r.primaryCategory),
      OrEmpty(r.published),
      OrEmpty(r.summary),
      OrEmpty(r.title),
      OrEmpty(r.updated))
  }

  /** A result with every field missing becomes all empty strings and empty lists. */
  lemma NormalizeMissing()
    ensures Normalize(Record(None, None, None, None, None, None, None, None, None, None, None, None))
         == Metadata([], [], "", "", "", "", [], "", "", "", "", "")
  {
  }

  /** A missing link part is encoded as an empty part: a link with nothing set is `",,,"`. */
  lemma EmptyLinkText()
    ensures LinkText(Link(None, None, None, None)) == ",,,"
  {
  }

  // ---------------------------------------------------------------------------
  // The chat model (ChatGPTModel.prompt)

  /** What one call of `model.prompt` does: raise, or return a value that may be None. */
  datatype Reply = Raised | Returned(text: Nullable)

  /** True when an answering function never raises. */
  ghost predicate NeverRaises(reply: (nat, string) -> Reply) {
    forall n: nat, m: string :: reply(n, m).Returned?
  }

  /**
   * `ChatGPTModel.prompt` around the OpenAI client `api`: an exception from
   * the client is caught and the method returns None instead.
   */
  function Swallowing(api: (nat, string) -> Reply): (reply: (nat, string) -> Reply)
    ensures NeverRaises(reply)
    ensures forall n: nat, m: string :: api(n, m).Returned? ==> reply(n, m) == api(n, m)
    ensures forall n: nat, m: string :: api(n, m).Raised? ==> reply(n, m) == Returned(Null)
  {
    (n: nat, m: string) => if api(n, m).Raised? then Returned(Null) else api(n, m)
  }

  /**
   * The chat model as `gpt_CN_translate` sees it. The answer to the call
   * numbered `calls` with message `m` is `reply(calls, m)`, so any pattern
   * of failures and answers can be described.
   */
  class Translator {
    const reply: (nat, string) -> Reply
    const log: Log
    var calls: nat

    constructor(reply: (nat, string) -> Reply, log: Log)
      ensures this.reply == reply && this.log == log && calls == 0
    {
      this.reply := reply;
      this.log := log;
      calls := 0;
    }

    /** `model.prompt(message)`. */
    method Prompt(message: string) returns (r: Reply)
      modifies this, log
      ensures r == reply(old(calls), message)
      ensures calls == old(calls) + 1
      ensures log.events == old(log.events) + [PromptCall(message)]
    {
      r := reply(calls, message);
      calls := calls + 1;
      log.events := log.events + [PromptCall(message)];
    }
  }

  // ---------------------------------------------------------------------------
  // Translation with bounded retries (Article.gpt_CN_translate)

  /** `max_retries`. */
  const MaxRetries: nat := 3

  /** The text a field gets when every attempt to translate it raised. */
  const Sentinel: string := "Translation failed."

  function TitlePrompt(title: string): string {
    "请帮我翻译这个文献标题：" + title
  }

  function SummaryPrompt(summary: string): string {
    "请帮我翻译这个文献摘要：" + summary
  }

  /** True when every call numbered from `from` up to, not including, `to` raises for `message`. */
  predicate AllRaise(reply: (nat, string) -> Reply, from: int, to: int, message: string) {
    forall n: nat :: from <= n < to ==> reply(n, message).Raised?
  }

  /** The outcome of retrying one field: how many calls were made, and the first answer if any call returned. */
  datatype Attempts = Attempts(calls: nat, answer: Option<Nullable>)

  /**
   * Calling the model with `message` up to `left` times, starting at call
   * number `start`, stopping at the first call that does not raise.
   */
  function Retry(reply: (nat, string) -> Reply, start: nat, message: string, left: nat): (a: Attempts)
    ensures a.calls <= left && (left > 0 ==> 1 <= a.calls)
    decreases left
  {
    if left == 0 then Attempts(0, None)
    else match reply(start, message)
      case Returned(t) => Attempts(1, Some(t))
      case Raised =>
        var rest := Retry(reply, start + 1, message, left - 1);
        Attempts(rest.calls + 1, rest.answer)
  }

  /**
   * What Retry promises: every call before the last one made raised; with no
   * answer, all `left` calls were made and raised; with an answer, it is what
   * the last call returned.
   */
  lemma {:induction false} RetryStopsAtFirstAnswer(reply: (nat, string) -> Reply, start: nat, message: string, left: nat)
    ensures var a := Retry(reply, start, message, left);
      && AllRaise(reply, start, start + a.calls - 1, message)
      && (a.answer.None? ==> a.calls == left && AllRaise(reply, start, start + left, message))
      && (a.answer.Some? ==> reply(start + a.calls - 1, message) == Returned(a.answer.value))
    decreases left
  {
    if left > 0 && reply(start, message).Raised? {
      RetryStopsAtFirstAnswer(reply, start + 1, message, left - 1);
    }
  }

  /** The first call that returns ends the retries, and its answer is kept. */
  lemma {:induction false} RetryFirstAnswer(reply: (nat, string) -> Reply, start: nat, message: string, left: nat, k: nat)
    requires k < left
    requires AllRaise(reply, start, start + k, message)
    requires reply(start + k, message).Returned?
    ensures Retry(reply, start, message, left) == Attempts(k + 1, Some(reply(start + k, message).text))
    decreases k
  {
    if k > 0 {
      assert reply(start, message).Raised?;
      RetryFirstAnswer(reply, start + 1, message, left - 1, k - 1);
    }
  }

  /** When every allowed call raises, all of them are made and there is no answer. */
  lemma {:induction false} RetryAllRaised(reply: (nat, string) -> Reply, start: nat, message: string, left: nat)
    requires AllRaise(reply, start, start + left, message)
    ensures Retry(reply, start, message, left) == Attempts(left, None)
    decreases left
  {
    if left > 0 {
      assert reply(start, message).Raised?;
      RetryAllRaised(reply, start + 1, message, left - 1);
    }
  }

  /**
   * Where a retry loop of `GptCnTranslate` can stop: after `retries` calls
   * that raised, either at the call that answered or with the budget spent.
   * The calls made and the events logged are those of Retry.
   */
  lemma RetryLoopExit(reply: (nat, string) -> Reply, start: nat, message: string, retries: nat, answer: Option<Nullable>)
    returns (a: Attempts)
    requires retries <= MaxRetries && AllRaise(reply, start, start + retries, message)
    requires answer.None? ==> retries == MaxRetries
    requires answer.Some? ==> retries < MaxRetries && reply(start + retries, message) == Returned(answer.value)
    ensures a == Retry(reply, start, message, MaxRetries)
    ensures a.answer == answer
    ensures a.calls == if answer.Some? then retries + 1 else retries
    ensures Repeat(PromptCall(message), a.calls)
         == Repeat(PromptCall(message), retries) + (if answer.Some? then [PromptCall(message)] else [])
  {
    a := Retry(reply, start, message, MaxRetries);
    if answer.Some? {
      RetryFirstAnswer(reply, start, message, MaxRetries, retries);
    } else {
      RetryAllRaised(reply, start, message, MaxRetries);
    }
  }

  /** The value a field ends with: the first answer, or the sentinel when every attempt raised. */
  function Settle(a: Attempts): (v: Nullable)
    ensures a.answer.None? ==> v == Str(Sentinel)
    ensures a.answer.Some? ==> v == a.answer.value
  {
    match a.answer
    case None => Str(Sentinel)
    case Some(t) => t
  }

  /** What translating one article produces: both fields, the calls made and the events logged. */
  datatype Translation = Translation(cnTitle: Nullable, cnSummary: Nullable, calls: nat, events: seq<Event>)

  /** `article.gpt_CN_translate(model)` with the model's calls numbered from `start`. */
  function Translate(reply: (nat, string) -> Reply, start: nat, m: Metadata): Translation {
    var a := Retry(reply, start, TitlePrompt(m.title), MaxRetries);
    var b := Retry(reply, start + a.calls, SummaryPrompt(m.summary), MaxRetries);
    Translation(Settle(a), Settle(b), a.calls + b.calls,
      Repeat(PromptCall(TitlePrompt(m.title)), a.calls) + Repeat(PromptCall(SummaryPrompt(m.summary)), b.calls))
  }

  /** Translating an article makes one to three model calls per field, and logs each of them as a prompt. */
  lemma TranslateShape(reply: (nat, string) -> Reply, start: nat, m: Metadata)
    ensures var t := Translate(reply, start, m);
      && 2 <= t.calls <= 2 * MaxRetries
      && |t.events| == t.calls
      && forall i :: 0 <= i < |t.events| ==> t.events[i].PromptCall?
  {
    var a := Retry(reply, start, TitlePrompt(m.title), MaxRetries);
    var b := Retry(reply, start + a.calls, SummaryPrompt(m.summary), MaxRetries);
  }

  /** Translate in terms of the attempts for the two fields. */
  lemma TranslateFromAttempts(reply: (nat, string) -> Reply, start: nat, m: Metadata, a: Attempts, b: Attempts)
    requires a == Retry(reply, start, TitlePrompt(m.title), MaxRetries)
    requires b == Retry(reply, start + a.calls, SummaryPrompt(m.summary), MaxRetries)
    ensures Translate(reply, start, m) == Translation(Settle(a), Settle(b), a.calls + b.calls,
      Repeat(PromptCall(TitlePrompt(m.title)), a.calls) + Repeat(PromptCall(SummaryPrompt(m.summary)), b.calls))
  {
  }

  /** With a model that never raises, as the real `ChatGPTModel.prompt` is, each field is asked once and keeps the answer, None included. */
  lemma OneCallPerFieldWhenNothingRaises(reply: (nat, string) -> Reply, start: nat, m: Metadata)
    requires NeverRaises(reply)
    ensures var t := Translate(reply, start, m);
      && t.calls == 2
      && t.cnTitle == reply(start, TitlePrompt(m.title)).text
      && t.cnSummary == reply(start + 1, SummaryPrompt(m.summary)).text
  {
    assert reply(start, TitlePrompt(m.title)).Returned?;
    assert reply(start + 1, SummaryPrompt(m.summary)).Returned?;
    RetryFirstAnswer(reply, start, TitlePrompt(m.title), MaxRetries, 0);
    RetryFirstAnswer(reply, start + 1, SummaryPrompt(m.summary), MaxRetries, 0);
  }

  /** A model that always raises is called three times per field, and both fields get the sentinel. */
  lemma AlwaysRaisingModel(reply: (nat, string) -> Reply, start: nat, m: Metadata)
    requires forall n: nat, msg: string :: reply(n, msg) == Raised
    ensures Translate(reply, start, m) == Translation(Str(Sentinel), Str(Sentinel), 6,
      Repeat(PromptCall(TitlePrompt(m.title)), 3) + Repeat(PromptCall(SummaryPrompt(m.summary)), 3))
  {
    var a := Retry(reply, start, TitlePrompt(m.title), MaxRetries);
    var b := Retry(reply, start + 3, SummaryPrompt(m.summary), MaxRetries);
  }

  /**
   * The retry counter is reset between the fields: after the title has used
   * up its three attempts, the summary still gets its own first attempt.
   */
  lemma TitleFailureLeavesSummaryBudget(reply: (nat, string) -> Reply, start: nat, m: Metadata)
    requires AllRaise(reply, start, start + 3, TitlePrompt(m.title))
    requires reply(start + 3, SummaryPrompt(m.summary)).Returned?
    ensures var t := Translate(reply, start, m);
      && t.cnTitle == Str(Sentinel)
      && t.cnSummary == reply(start + 3, SummaryPrompt(m.summary)).text
      && t.calls == 4
  {
    RetryFirstAnswer(reply, start + 3, SummaryPrompt(m.summary), MaxRetries, 0);
  }

  /** A fetched article: its metadata never changes; the two translations are set by `GptCnTranslate`. */
  class Article {
    const meta: Metadata
    /** `CN_title`; None while the attribute has not been set. */
    var cnTitle: Option<Nullable>
    /** `CN_summary`; None while the attribute has not been set. */
    var cnSummary: Option<Nullable>

    /** `Article(...)` on a fetched result. The constructor's own CN_title and CN_summary arguments are never stored. */
    constructor(r: Record)
      ensures meta == Normalize(r) && cnTitle == None && cnSummary == None
    {
      meta := Normalize(r);
      cnTitle := None;
      cnSummary := None;
    }

    /**
     * `gpt_CN_translate`: the title, then the summary, each with its own
     * budget of MaxRetries calls; a field whose budget runs out gets the
     * sentinel.
     */
    method GptCnTranslate(model: Translator)
      modifies this, model, model.log
      ensures var t := Translate(model.reply, old(model.calls), meta);
        && cnTitle == Some(t.cnTitle)
        && cnSummary == Some(t.cnSummary)
        && model.calls == old(model.calls) + t.calls
        && model.log.events == old(model.log.events) + t.events
    {
      ghost var start, before := model.calls, model.log.events;
      ghost var a := Retry(model.reply, start, TitlePrompt(meta.title), MaxRetries);
      var answer, retries := RetryPrompt(model, TitlePrompt(meta.title));
      if answer.Some? {
        cnTitle := answer;
      }
      if retries == MaxRetries {
        cnTitle := Some(Str(Sentinel));
      }
      assert cnTitle == Some(Settle(a));
      ghost var titleEvents := Repeat(PromptCall(TitlePrompt(meta.title)), a.calls);
      assert model.log.events == before + titleEvents;

      ghost var b := Retry(model.reply, start + a.calls, SummaryPrompt(meta.summary), MaxRetries);
      answer, retries := RetryPrompt(model, SummaryPrompt(meta.summary));
      if answer.Some? {
        cnSummary := answer;
      }
      if retries == MaxRetries {
        cnSummary := Some(Str(Sentinel));
      }
      assert cnSummary == Some(Settle(b));
      ghost var summaryEvents := Repeat(PromptCall(SummaryPrompt(meta.summary)), b.calls);
      assert model.log.events == before + (titleEvents + summaryEvents);
      TranslateFromAttempts(model.reply, start, meta, a, b);
    }
  }

  /**
   * One of the two counter loops of `gpt_CN_translate`: call the model with
   * `message` until a call does not raise or MaxRetries calls have raised.
   * `retries` counts the calls that raised.
   */
  method RetryPrompt(model: Translator, message: string) returns (answer: Option<Nullable>, retries: nat)
    modifies model, model.log
    ensures var a := Retry(model.reply, old(model.calls), message, MaxRetries);
      && answer == a.answer
      && model.calls == old(model.calls) + a.calls
      && model.log.events == old(model.log.events) + Repeat(PromptCall(message), a.calls)
    ensures answer.None? <==> retries == MaxRetries
  {
    ghost var start := model.calls;
    answer := None;
    retries := 0;
    while retries < MaxRetries
      invariant 0 <= retries <= MaxRetries && answer.None?
      invariant model.calls == start + retries
      invariant model.log.events == old(model.log.events) + Repeat(PromptCall(message), retries)
      invariant AllRaise(model.reply, start, start + retries, message)
    {
      var r := model.Prompt(message);
      if r.Returned? {
        answer := Some(r.text);
        break;
      }
      retries := retries + 1;
    }
    ghost var a := RetryLoopExit(model.reply, start, message, retries, answer);
  }

  // ---------------------------------------------------------------------------
  // The row inserted for an article (insert_articles_to_database)

  /** One row of a category table, the 14 columns of the INSERT in their order. */
  datatype Row = Row(
    title: string,
    summary: string,
    published: string,
    authors: string,
    categories: string,
    comment: string,
    doi: string,
    entryId: string,
    journalRef: string,
    links: string,
    primaryCategory: string,
    updated: string,
    cnTitle: Nullable,
    cnSummary: Nullable)

  /** The record tuple built for a translated article; the three lists are joined with ",". */
  function ToRow(m: Metadata, cnTitle: Nullable, cnSummary: Nullable): (row: Row)
    ensures row.entryId == m.entryId && row.cnTitle == cnTitle && row.cnSummary == cnSummary
    ensures row.title == m.title && row.summary == m.summary && row.published == m.published
    ensures row.comment == m.comment && row.doi == m.doi && row.journalRef == m.journalRef
    ensures row.primaryCategory == m.primaryCategory && row.updated == m.updated
    ensures row.authors == Join(",", m.authors) && row.categories == Join(",", m.categories)
    ensures row.links == Join(",", m.links)
  {
    Row(m.title, m.summary, m.published, Join(",", m.authors), Join(",", m.categories), m.comment,
        m.doi, m.entryId, m.journalRef, Join(",", m.links), m.primaryCategory, m.updated, cnTitle, cnSummary)
  }

  /** The authors column splits back into the author names when there is at least one name and none contains a comma. */
  lemma {:induction false} AuthorsColumnSplits(m: Metadata, cnTitle: Nullable, cnSummary: Nullable)
    requires |m.authors| >= 1
    requires forall i :: 0 <= i < |m.authors| ==> ',' !in m.authors[i]
    ensures Split(ToRow(m, cnTitle, cnSummary).authors, ',') == m.authors
  {
    SplitJoin(m.authors, ',');
  }

  /**
   * Joining flattens away the difference between no authors and one author
   * without a name: both give the empty column, which splits into one empty
   * name. The same holds for the categories and links columns.
   */
  lemma NoAuthorsLikeOneNameless(m: Metadata, cnTitle: Nullable, cnSummary: Nullable)
    requires m.authors == []
    ensures ToRow(m, cnTitle, cnSummary).authors == ToRow(m.(authors := [""]), cnTitle, cnSummary).authors == ""
    ensures Split(ToRow(m, cnTitle, cnSummary).authors, ',') == [""] != m.authors
  {
  }

  /** The categories column splits back into the categories when there is at least one and none contains a comma. */
  lemma {:induction false} CategoriesColumnSplits(m: Metadata, cnTitle: Nullable, cnSummary: Nullable)
    requires |m.categories| >= 1
    requires forall i :: 0 <= i < |m.categories| ==> ',' !in m.categories[i]
    ensures Split(ToRow(m, cnTitle, cnSummary).categories, ',') == m.categories
  {
    SplitJoin(m.categories, ',');
  }

  /**
   * For arbitrary metadata, the links column splits back into the link texts
   * when there is at least one and none contains a comma. No fetched result
   * meets this, because every `LinkText` holds three commas of its own; what
   * the column of a fetched result reads back as is `LinksColumnOfFetchedResult`.
   */
  lemma {:induction false} LinksColumnSplits(m: Metadata, cnTitle: Nullable, cnSummary: Nullable)
    requires |m.links| >= 1
    requires forall i :: 0 <= i < |m.links| ==> ',' !in m.links[i]
    ensures Split(ToRow(m, cnTitle, cnSummary).links, ',') == m.links
  {
    SplitJoin(m.links, ',');
  }

  /** The parts of every link, link after link: four per link. */
  function AllLinkParts(links: seq<Link>): (parts: seq<string>)
    ensures |parts| == 4 * |links|
  {
    if links == [] then [] else AllLinkParts(links[..|links| - 1]) + LinkParts(links[|links| - 1])
  }

  /**
   * A link text holds three commas of its own, so the links column of a
   * fetched result does not split into one piece per link: when no link part
   * contains a comma, it splits into the four parts of each link in turn.
   */
  lemma {:induction false} LinksColumnParts(links: seq<Link>)
    requires |links| >= 1
    requires forall i, j :: 0 <= i < |links| && 0 <= j < 4 ==> ',' !in LinkParts(links[i])[j]
    ensures Split(Join(",", LinkTexts(links)), ',') == AllLinkParts(links)
  {
    var n := |links|;
    var init, last := links[..n - 1], links[n - 1];
    LinkTextSplits(last);
    if n == 1 {
      assert LinkTexts(links) == [LinkText(last)];
      assert init == [];
    } else {
      assert forall i, j :: 0 <= i < |init| && 0 <= j < 4 ==> ',' !in LinkParts(init[i])[j] by {
        forall i, j | 0 <= i < |init| && 0 <= j < 4 ensures ',' !in LinkParts(init[i])[j] {
          assert init[i] == links[i];
        }
      }
      LinksColumnParts(init);
      var texts := LinkTexts(links);
      assert texts[..n - 1] == LinkTexts(init);
      assert Join(",", texts) == Join(",", LinkTexts(init)) + "," + LinkText(last);
      SplitConcat(Join(",", LinkTexts(init)), ',', LinkText(last));
    }
  }

  /** The links column of a fetched result with at least one link, whose parts hold no comma, reads back as the parts of its links. */
  lemma LinksColumnOfFetchedResult(r: Record, cnTitle: Nullable, cnSummary: Nullable)
    requires |OrNone(r.links)| >= 1
    requires var links := OrNone(r.links);
      forall i, j :: 0 <= i < |links| && 0 <= j < 4 ==> ',' !in LinkParts(links[i])[j]
    ensures Split(ToRow(Normalize(r), cnTitle, cnSummary).links, ',') == AllLinkParts(OrNone(r.links))
  {
    LinksColumnParts(OrNone(r.links));
  }

  /** True when both translations of every article in `arts` have been set. */
  predicate Translated(arts: seq<Article>)
    reads arts
  {
    forall i :: 0 <= i < |arts| ==> arts[i].cnTitle.Some? && arts[i].cnSummary.Some?
  }

  /** `records`: one row per article, in the order of the articles. */
  function Records(arts: seq<Article>): (rows: seq<Row>)
    requires Translated(arts)
    reads arts
    ensures |rows| == |arts|
    ensures forall i :: 0 <= i < |arts| ==>
      rows[i] == ToRow(arts[i].meta, arts[i].cnTitle.value, arts[i].cnSummary.value)
  {
    seq(|arts|, i reads arts requires 0 <= i < |arts| && Translated(arts) =>
      ToRow(arts[i].meta, arts[i].cnTitle.value, arts[i].cnSummary.value))
  }
}
