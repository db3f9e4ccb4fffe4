/**
 * `server/asyn_server.py`: the web front end that renders pages from the data
 * API. Modelled here are its configuration (the API base URL and key), the
 * URL and status handling of `api_get`, the timestamp conversion of
 * `parse_updated_field`, the per-category count table of the index page and
 * the request parameters and title of the article page.
 *
 * The HTTP exchange is an oracle `send` from URL and query to what came back;
 * `datetime.fromisoformat` is an oracle `fromIso` from text to an optional
 * date-time.
 */
module Server {
  import opened Wrappers
  import opened Text
  import opened Settings

  // ---------------------------------------------------------------------------
  // Configuration

  /** The character `base.rstrip("/")` removes. */
  predicate IsSlash(c: char) {
    c == '/'
  }

  const NoBaseUrl := "API base_url not configured"
  const NoApiKey := "API key not configured"

  /**
   * `os.getenv("API_BASE_URL") or self.config["api"].get("base_url", "")`: a
   * non-empty variable wins; otherwise `[api]` must exist (KeyError).
   */
  function RawBaseUrl(env: Env, file: ConfigFile): (r: Result<string, ConfigError>)
    ensures Truthy(Getenv(env, "API_BASE_URL")) ==> r == Ok(env["API_BASE_URL"])
    ensures r.Err? <==> !Truthy(Getenv(env, "API_BASE_URL")) && "api" !in file
    ensures r.Err? ==> r.error == MissingSection("api")
  {
    var v := Getenv(env, "API_BASE_URL");
    if Truthy(v) then Ok(v.value)
    else if "api" !in file then Err(MissingSection("api"))
    else Ok(LookupOr(file["api"], "base_url", ""))
  }

  /**
   * `Config.api_base_url()`: the raw base with every trailing `/` removed; it
   * raises when nothing is left.
   */
  function ApiBaseUrl(env: Env, file: ConfigFile): (r: Result<string, ConfigError>)
    ensures RawBaseUrl(env, file).Err? ==> r == RawBaseUrl(env, file)
    ensures r.Ok? ==> r.value != "" && r.value[|r.value| - 1] != '/'
    ensures r.Ok? ==> var raw := RawBaseUrl(env, file).value;
      && |r.value| <= |raw| && r.value == raw[..|r.value|]
      && (forall i :: |r.value| <= i < |raw| ==> raw[i] == '/')
    ensures RawBaseUrl(env, file).Ok? ==>
      (r.Err? <==> AllIn(RawBaseUrl(env, file).value, IsSlash))
    ensures RawBaseUrl(env, file).Ok? && r.Err? ==> r.error == NotConfigured(NoBaseUrl)
  {
    match RawBaseUrl(env, file)
    case Err(e) => Err(e)
    case Ok(raw) =>
      var base := StripRight(raw, IsSlash);
      if base == "" then Err(NotConfigured(NoBaseUrl)) else Ok(base)
  }

  /** A base URL that is already normalised is returned as configured. */
  lemma NormalisedBaseUrlKept(env: Env, file: ConfigFile)
    requires RawBaseUrl(env, file).Ok?
    requires var raw := RawBaseUrl(env, file).value; raw != "" && raw[|raw| - 1] != '/'
    ensures ApiBaseUrl(env, file) == RawBaseUrl(env, file)
  {
  }

  /** Normalising twice changes nothing: a base taken from the loader comes back from it unchanged. */
  lemma ApiBaseUrlIdempotent(env: Env, file: ConfigFile, env': Env)
    requires ApiBaseUrl(env, file).Ok?
    requires env' == env["API_BASE_URL" := ApiBaseUrl(env, file).value]
    ensures ApiBaseUrl(env', file) == ApiBaseUrl(env, file)
  {
  }

  /**
   * `Config.api_key()`: a non-empty API_KEY wins; otherwise `[api]` must
   * exist (KeyError) and its `key`, when non-empty, is used; else it raises.
   */
  function ApiKey(env: Env, file: ConfigFile): (r: Result<string, ConfigError>)
    ensures Truthy(Getenv(env, "API_KEY")) ==> r == Ok(env["API_KEY"])
    ensures !Truthy(Getenv(env, "API_KEY")) && "api" !in file ==> r == Err(MissingSection("api"))
    ensures !Truthy(Getenv(env, "API_KEY")) && "api" in file ==>
      r == (if Truthy(Lookup(file["api"], "key")) then Ok(Lookup(file["api"], "key").value) else Err(NotConfigured(NoApiKey)))
    ensures r.Ok? ==> r.value != ""
  {
    var v := Getenv(env, "API_KEY");
    if Truthy(v) then Ok(v.value)
    else if "api" !in file then Err(MissingSection("api"))
    else
      var key := Lookup(file["api"], "key");
      if !Truthy(key) then Err(NotConfigured(NoApiKey)) else Ok(key.value)
  }

  // ---------------------------------------------------------------------------
  // api_get

  /** The URL `api_get` requests: the path is appended, with a `/` in between unless it already starts with one. */
  function JoinUrl(base: string, path: string): (url: string)
    ensures |path| > 0 && path[0] == '/' ==> url == base + path
    ensures !(|path| > 0 && path[0] == '/') ==> url == base + "/" + path
  {
    if |path| > 0 && path[0] == '/' then base + path else base + "/" + path
  }

  /** Exactly one `/` separates the base from the path: a leading `/` on the path is optional. */
  lemma JoinUrlOneSeparator(base: string, path: string)
    requires !(|path| > 0 && path[0] == '/')
    ensures JoinUrl(base, "/" + path) == JoinUrl(base, path)
    ensures JoinUrl(base, path)[..|base| + 1] == base + "/"
  {
    assert ("/" + path)[0] == '/';
    assert base + ("/" + path) == base + "/" + path;
  }

  /** A query parameter value: text or an integer. */
  datatype QueryValue = Text(text: string) | Number(number: int)

  /** A query string as built in the handlers: names and values in insertion order. */
  type Query = seq<(string, QueryValue)>

  /** What `session.get(url, params=...)` came back with. */
  datatype Exchange<J> =
    | Response(status: int, text: string, json: Option<J>)   // `json` is None when the body is not JSON
    | Raised(message: string)                                 // the request itself failed

  /** The `web.HTTPBadGateway` that `api_get` raises; `reason` is its message. */
  datatype BadGateway = BadGateway(reason: string)

  const RequestFailed := "API request failed: "

  /**
   * `api_get(app, path, params)`: only a 200 response with a JSON body yields
   * that body. Any other status raises Bad Gateway inside the `try`, and the
   * `except Exception` around it wraps that, like every other failure, in a
   * second Bad Gateway whose reason starts with "API request failed: ". The
   * message of a Bad Gateway is its reason; the message of a failed JSON
   * decode is the oracle `decodeError`.
   */
  function ApiGet<J>(base: string, path: string, params: Option<Query>,
                     send: (string, Option<Query>) -> Exchange<J>, decodeError: string): (r: Result<J, BadGateway>)
    ensures var e := send(JoinUrl(base, path), params);
      r.Ok? <==> e.Response? && e.status == 200 && e.json.Some?
    ensures var e := send(JoinUrl(base, path), params);
      r.Ok? ==> r.value == e.json.value
    ensures var e := send(JoinUrl(base, path), params);
      e.Response? && e.status != 200 ==>
        r == Err(BadGateway(RequestFailed + ("API " + IntToString(e.status) + ": " + e.text)))
    ensures r.Err? ==> |RequestFailed| <= |r.error.reason| && r.error.reason[..|RequestFailed|] == RequestFailed
  {
    match send(JoinUrl(base, path), params)
    case Raised(message) => Err(BadGateway(RequestFailed + message))
    case Response(status, text, json) =>
      if status != 200 then
        var inner := BadGateway("API " + IntToString(status) + ": " + text);
        Err(BadGateway(RequestFailed + inner.reason))
      else if json.None? then Err(BadGateway(RequestFailed + decodeError))
      else Ok(json.value)
  }

  // ---------------------------------------------------------------------------
  // parse_updated_field

  /** A `datetime` value. */
  datatype DateTime = DateTime(year: int, month: int, day: int, hour: int, minute: int, second: int, microsecond: int)

  /** A value in an article item: a string, a converted `datetime`, or any other JSON value. */
  datatype Value = Str(text: string) | Time(at: DateTime) | Other(json: string)

  /** One article item of the `/articles` answer, a JSON object. */
  type Item = map<string, Value>

  /** The character `ts.rstrip("Z")` removes. */
  predicate IsZ(c: char) {
    c == 'Z'
  }

  /** True when the item's `updated` is a non-empty string, the only case the loop body acts on. */
  predicate HasTextStamp(item: Item) {
    "updated" in item && item["updated"].Str? && item["updated"].text != ""
  }

  /** The text `fromisoformat` is given: the stamp with every trailing `Z` removed. */
  function CleanStamp(ts: string): (t: string)
    ensures |t| <= |ts| && t == ts[..|t|] && (forall i :: |t| <= i < |ts| ==> ts[i] == 'Z')
    ensures t == [] || t[|t| - 1] != 'Z'
  {
    StripRight(ts, IsZ)
  }

  /**
   * One turn of the loop: a non-empty string `updated` that parses once its
   * trailing `Z`s are gone is replaced by the `datetime`; on a parse failure,
   * or for any other item, nothing changes.
   */
  function ParseItem(item: Item, fromIso: string -> Option<DateTime>): (r: Item)
    ensures r.Keys == item.Keys
    ensures forall k :: k in item && k != "updated" ==> r[k] == item[k]
    ensures !HasTextStamp(item) ==> r == item
    ensures HasTextStamp(item) && fromIso(CleanStamp(item["updated"].text)).None? ==> r == item
    ensures HasTextStamp(item) && fromIso(CleanStamp(item["updated"].text)).Some? ==>
      r["updated"] == Time(fromIso(CleanStamp(item["updated"].text)).value)
  {
    if !HasTextStamp(item) then item
    else
      match fromIso(CleanStamp(item["updated"].text))
      case None => item
      case Some(t) => item["updated" := Time(t)]
  }

  /** The items after `parse_updated_field`: the same list, each item converted. */
  function ParsedItems(items: seq<Item>, fromIso: string -> Option<DateTime>): (r: seq<Item>)
    ensures |r| == |items|
    ensures forall i :: 0 <= i < |items| ==> r[i] == ParseItem(items[i], fromIso)
  {
    seq(|items|, i requires 0 <= i < |items| => ParseItem(items[i], fromIso))
  }

  /** A converted item is left alone by a second conversion. */
  lemma ParseItemIdempotent(item: Item, fromIso: string -> Option<DateTime>)
    ensures ParseItem(ParseItem(item, fromIso), fromIso) == ParseItem(item, fromIso)
  {
  }

  /** Converting the list twice is the same as converting it once. */
  lemma ParsedItemsIdempotent(items: seq<Item>, fromIso: string -> Option<DateTime>)
    ensures ParsedItems(ParsedItems(items, fromIso), fromIso) == ParsedItems(items, fromIso)
  {
    var once := ParsedItems(items, fromIso);
    forall i | 0 <= i < |items|
      ensures ParsedItems(once, fromIso)[i] == once[i]
    {
      ParseItemIdempotent(items[i], fromIso);
    }
  }

  /**
   * `parse_updated_field(items)`: every item dict is updated in place and the
   * same list object is returned.
   */
  method ParseUpdatedField(items: array<Item>, fromIso: string -> Option<DateTime>) returns (r: array<Item>)
    modifies items
    ensures r == items
    ensures items[..] == ParsedItems(old(items[..]), fromIso)
  {
    var k := 0;
    while k < items.Length
      invariant 0 <= k <= items.Length
      invariant forall j :: 0 <= j < k ==> items[j] == ParseItem(old(items[j]), fromIso)
      invariant forall j :: k <= j < items.Length ==> items[j] == old(items[j])
    {
      items[k] := ParseItem(items[k], fromIso);
      k := k + 1;
    }
    r := items;
  }

  // ---------------------------------------------------------------------------
  // The index page's count table

  /** A dict from category to count, as its entries in insertion order. */
  type Counts = seq<(string, int)>

  /** `key in d`. */
  predicate HasKey(d: Counts, key: string) {
    exists i :: 0 <= i < |d| && d[i].0 == key
  }

  /** No key occurs twice, as in every dict. */
  predicate DistinctKeys(d: Counts) {
    forall i, j :: 0 <= i < j < |d| ==> d[i].0 != d[j].0
  }

  /** `d.get(key)`. */
  function Get(d: Counts, key: string): (r: Option<int>)
    ensures r.Some? <==> HasKey(d, key)
  {
    if d == [] then None
    else if d[0].0 == key then Some(d[0].1)
    else
      assert forall i :: 1 <= i < |d| ==> d[i] == d[1..][i - 1];
      Get(d[1..], key)
  }

  /** `d[key] = value`: an existing key keeps its place and takes the new value; a new key goes last. */
  function SetItem(d: Counts, key: string, value: int): (r: Counts)
    ensures |d| <= |r| && forall j :: 0 <= j < |d| ==> r[j].0 == d[j].0
    ensures HasKey(d, key) ==> |r| == |d|
    ensures !HasKey(d, key) ==> r == d + [(key, value)]
  {
    if d == [] then [(key, value)]
    else if d[0].0 == key then [(key, value)] + d[1..]
    else
      assert !HasKey(d, key) ==> !HasKey(d[1..], key);
      assert HasKey(d, key) ==> HasKey(d[1..], key) by {
        if HasKey(d, key) {
          var i :| 0 <= i < |d| && d[i].0 == key;
          assert d[1..][i - 1].0 == key;
        }
      }
      [d[0]] + SetItem(d[1..], key, value)
  }

  /** After `d[key] = value`, `d[key]` is `value`. */
  lemma {:induction false} GetSetItem(d: Counts, key: string, value: int)
    ensures Get(SetItem(d, key, value), key) == Some(value)
  {
    if d != [] && d[0].0 != key {
      GetSetItem(d[1..], key, value);
    }
  }

  /** `d[key] = value` leaves every other key's value as it was. */
  lemma {:induction false} GetSetItemOther(d: Counts, key: string, value: int, other: string)
    requires other != key
    ensures Get(SetItem(d, key, value), other) == Get(d, other)
  {
    if d != [] && d[0].0 != key {
      GetSetItemOther(d[1..], key, value, other);
    }
  }

  /** Setting a key keeps the keys distinct. */
  lemma SetItemDistinct(d: Counts, key: string, value: int)
    requires DistinctKeys(d)
    ensures DistinctKeys(SetItem(d, key, value))
  {
  }

  /** One element of the `/categories/counts` items: `category` may be missing, `count` defaults to 0. */
  datatype CountItem = CountItem(category: Option<string>, count: Option<int>)

  /**
   * `{item["category"]: item.get("count", 0) for item in items}`: a later item
   * overrides an earlier one with the same category; an item without
   * `category` raises KeyError.
   */
  function CountsDict(items: seq<CountItem>): (r: Result<Counts, string>)
    ensures r.Err? <==> MissingCategory(items)
    ensures r.Err? ==> r.error == "category"
    ensures r.Ok? ==> DistinctKeys(r.value)
  {
    if items == [] then Ok([])
    else
      var init, last := items[..|items| - 1], items[|items| - 1];
      MissingCategorySnoc(items);
      match CountsDict(init)
      case Err(e) => Err(e)
      case Ok(d) =>
        if last.category.None? then Err("category")
        else
          SetItemDistinct(d, last.category.value, last.count.GetOr(0));
          Ok(SetItem(d, last.category.value, last.count.GetOr(0)))
  }

  /** Some item has no `category`. */
  predicate MissingCategory(items: seq<CountItem>) {
    exists i :: 0 <= i < |items| && items[i].category.None?
  }

  /** An item is missing its category in a list exactly when one is in all but the last, or the last is. */
  lemma MissingCategorySnoc(items: seq<CountItem>)
    requires items != []
    ensures MissingCategory(items) <==> MissingCategory(items[..|items| - 1]) || items[|items| - 1].category.None?
  {
    var init := items[..|items| - 1];
    assert forall i :: 0 <= i < |init| ==> init[i] == items[i];
  }

  /** The count shown for a category is the one its last item in the answer carries. */
  lemma {:induction false} CountsDictLastWins(items: seq<CountItem>, i: nat)
    requires CountsDict(items).Ok? && i < |items|
    requires forall j :: i < j < |items| ==> items[j].category != items[i].category
    ensures Get(CountsDict(items).value, items[i].category.value) == Some(items[i].count.GetOr(0))
  {
    var init, last := items[..|items| - 1], items[|items| - 1];
    assert CountsDict(init).Ok?;
    var d := CountsDict(init).value;
    assert CountsDict(items).value == SetItem(d, last.category.value, last.count.GetOr(0));
    if i == |items| - 1 {
      GetSetItem(d, last.category.value, last.count.GetOr(0));
    } else {
      CountsDictLastWins(init, i);
      GetSetItemOther(d, last.category.value, last.count.GetOr(0), items[i].category.value);
    }
  }

  /** `for cat in categories: d.setdefault(cat, 0)`, as a function. */
  function SetDefaults(d: Counts, categories: seq<string>): (r: Counts)
  {
    if categories == [] then d
    else
      var r := SetDefaults(d, categories[..|categories| - 1]);
      var c := categories[|categories| - 1];
      if HasKey(r, c) then r else r + [(c, 0)]
  }

  /** The entries the API sent stay first, in their order and with their counts. */
  lemma {:induction false} SetDefaultsKeepsApi(api: Counts, categories: seq<string>)
    ensures var r := SetDefaults(api, categories);
      |api| <= |r| && r[..|api|] == api
  {
    if categories != [] {
      var init := categories[..|categories| - 1];
      SetDefaultsKeepsApi(api, init);
      var r0 := SetDefaults(api, init);
      assert (r0 + [(categories[|categories| - 1], 0)])[..|api|] == r0[..|api|];
    }
  }

  /** Every configured category ends up as a key. */
  lemma {:induction false} SetDefaultsCovers(api: Counts, categories: seq<string>)
    ensures forall c :: c in categories ==> HasKey(SetDefaults(api, categories), c)
  {
    if categories != [] {
      var init, c := categories[..|categories| - 1], categories[|categories| - 1];
      SetDefaultsCovers(api, init);
      var r0 := SetDefaults(api, init);
      assert categories == init + [c];
      forall x | x in categories ensures HasKey(SetDefaults(api, categories), x) {
        if x != c {
          assert x in init;
          var i :| 0 <= i < |r0| && r0[i].0 == x;
          assert SetDefaults(api, categories)[i] == r0[i];
        } else if !HasKey(r0, c) {
          assert SetDefaults(api, categories)[|r0|].0 == c;
        }
      }
    }
  }

  /** Each entry after the API's is a configured category the API did not send, with count 0. */
  lemma {:induction false} SetDefaultsAdds(api: Counts, categories: seq<string>)
    ensures var r := SetDefaults(api, categories);
      forall j :: |api| <= j < |r| ==> r[j].1 == 0 && r[j].0 in categories && !HasKey(api, r[j].0)
  {
    if categories != [] {
      var init, c := categories[..|categories| - 1], categories[|categories| - 1];
      SetDefaultsAdds(api, init);
      SetDefaultsKeepsApi(api, init);
      var r0 := SetDefaults(api, init);
      assert categories == init + [c];
    }
  }

  /** Defaults never introduce a second entry for a key. */
  lemma {:induction false} SetDefaultsDistinct(api: Counts, categories: seq<string>)
    requires DistinctKeys(api)
    ensures DistinctKeys(SetDefaults(api, categories))
  {
    if categories != [] {
      SetDefaultsDistinct(api, categories[..|categories| - 1]);
    }
  }

  /**
   * The count table of `index`: the counts the API sent, then `setdefault(cat, 0)`
   * for each configured category. Every configured category becomes a key;
   * the API's entries stay first, with their counts; each later entry is a
   * configured category the API did not send, with count 0.
   */
  method MergeCategoryCounts(api: Counts, categories: seq<string>) returns (info: Counts)
    ensures info == SetDefaults(api, categories)
    ensures |api| <= |info| && info[..|api|] == api
    ensures forall c :: c in categories ==> HasKey(info, c)
    ensures forall j :: |api| <= j < |info| ==>
      info[j].1 == 0 && info[j].0 in categories && !HasKey(api, info[j].0)
    ensures DistinctKeys(api) ==> DistinctKeys(info)
  {
    info := api;
    var i := 0;
    while i < |categories|
      invariant 0 <= i <= |categories|
      invariant info == SetDefaults(api, categories[..i])
    {
      var c := categories[i];
      assert categories[..i + 1][..i] == categories[..i];
      if !HasKey(info, c) {
        info := info + [(c, 0)];
      }
      i := i + 1;
    }
    assert categories[..i] == categories;
    SetDefaultsKeepsApi(api, categories);
    SetDefaultsCovers(api, categories);
    SetDefaultsAdds(api, categories);
    if DistinctKeys(api) {
      SetDefaultsDistinct(api, categories);
    }
  }

  // ---------------------------------------------------------------------------
  // The article page

  /** The article page asks for up to this many items. */
  const ArticlePageSize := 1000

  /** `params` of `article_handler`: `page_size` always, `date` only when a non-empty one was given. */
  function ArticleRequest(selected: Option<string>): (q: Query)
    ensures |q| >= 1 && q[0] == ("page_size", Number(ArticlePageSize))
    ensures Truthy(selected) <==> |q| == 2
    ensures |q| == 2 ==> q[1] == ("date", Text(selected.value))
  {
    if Truthy(selected) then [("page_size", Number(ArticlePageSize)), ("date", Text(selected.value))]
    else [("page_size", Number(ArticlePageSize))]
  }

  /** The page title: "Arxiv: TODAY" without a date, else "Arxiv: " and the date. */
  function ArticleTitle(selected: Option<string>): (t: string)
    ensures !Truthy(selected) ==> t == "Arxiv: TODAY"
    ensures Truthy(selected) ==> t == "Arxiv: " + selected.value
  {
    if !Truthy(selected) then "Arxiv: TODAY" else "Arxiv: " + selected.value
  }

  /** The title shows the date the request sends, or TODAY when it sends none. */
  lemma TitleMatchesRequest(selected: Option<string>)
    ensures var q := ArticleRequest(selected);
      ArticleTitle(selected) == "Arxiv: " + (if |q| == 2 then q[1].1.text else "TODAY")
  {
  }

  /** `params` of the counts request in `index`: the latest date when there is one, else none. */
  function CountsRequest(latest: Option<string>): (q: Option<Query>)
    ensures q.Some? <==> Truthy(latest)
    ensures q.Some? ==> q.value == [("date", Text(latest.value))]
  {
    if Truthy(latest) then Some([("date", Text(latest.value))]) else None
  }
}
