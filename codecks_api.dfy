/**
 * The request/response rules of the Codecks client (`CodecksAPI`): the
 * configuration check of its constructor, the three query documents, the
 * headers every request carries, and how the transport and HTTP outcomes of a
 * request become either a payload or nothing.
 */
module CodecksApi {
  import opened Wrappers
  import opened JsonValues

  const ApiUrl := "https://api.codecks.io/"
  /** Seconds before `requests` gives up on the remote service. */
  const TimeoutSeconds := 10

  /** The two settings read from `CODECKS_API_TOKEN` and `CODECKS_SUBDOMAIN`. */
  datatype Api = Api(token: string, subdomain: string)

  datatype ConfigError = TokenNotSet | SubdomainNotSet

  /** An environment variable that is present and not empty, so `not value` is false. */
  predicate IsSet(v: Option<string>) {
    v.Some? && v.value != ""
  }

  /** `CodecksAPI.__init__`: the token is checked first, then the subdomain. */
  function NewApi(token: Option<string>, subdomain: Option<string>): (r: Result<Api, ConfigError>)
    ensures r.Success? <==> IsSet(token) && IsSet(subdomain)
    ensures !IsSet(token) ==> r == Failure(TokenNotSet)
    ensures IsSet(token) && !IsSet(subdomain) ==> r == Failure(SubdomainNotSet)
    ensures r.Success? ==> r.value.token == token.value && r.value.subdomain == subdomain.value
  {
    if !IsSet(token) then Failure(TokenNotSet)
    else if !IsSet(subdomain) then Failure(SubdomainNotSet)
    else Success(Api(token.value, subdomain.value))
  }

  // ---------------------------------------------------------------------------
  // Responses

  /** The branches of `handle_response`, one per message it logs. */
  datatype StatusClass = Ok | BadRequest | Unauthorized | NotFound | ServerError | StatusTimeout | Unexpected

  function Classify(code: int): (c: StatusClass)
    ensures c == Ok <==> code == 200
    ensures c == Unexpected <==> code !in {200, 400, 401, 404, 500, 408}
  {
    if code == 200 then Ok
    else if code == 400 then BadRequest
    else if code == 401 then Unauthorized
    else if code == 404 then NotFound
    else if code == 500 then ServerError
    else if code == 408 then StatusTimeout
    else Unexpected
  }

  /** `handle_response`, given the status code and the decoded body. */
  function HandleResponse(code: int, body: Json): (r: Option<Json>)
    ensures r.Some? <==> code == 200
    ensures r.Some? ==> r.value == body
  {
    match Classify(code)
    case Ok => Some(body)
    case _ => None
  }

  lemma {:induction false} NoPayloadUnlessOk(code: int, body: Json)
    ensures HandleResponse(code, body).None? <==> Classify(code) != Ok
    ensures code in {400, 401, 404, 500, 408} ==> Classify(code) != Unexpected && HandleResponse(code, body) == None
  {
    assert Classify(code) == Ok <==> code == 200;
  }

  /**
   * What happens to one call of `requests.request`: it times out, fails in
   * `requests` for another reason, raises something else, or gets an answer
   * whose body decodes (`Some`) or does not (`None`).
   */
  datatype Exchange =
    | TimedOut
    | RequestFailed
    | OtherException
    | Answered(code: int, body: Option<Json>)

  /**
   * `make_request`'s result: every exception, including a body that fails to
   * decode on a 200 answer, is caught and becomes `None`.
   */
  function MakeRequest(ex: Exchange): (r: Option<Json>)
    ensures r.Some? <==> ex.Answered? && ex.code == 200 && ex.body.Some?
    ensures r.Some? ==> r.value == ex.body.value
  {
    match ex
    case TimedOut => None
    case RequestFailed => None
    case OtherException => None
    case Answered(code, body) =>
      if code == 200 && body.None? then None
      else HandleResponse(code, body.GetOr(Null))
  }

  /** An HTTP request as `make_request` hands it to `requests.request`. */
  datatype Request = Request(verb: string, url: string, headers: seq<(string, string)>, body: Json, timeout: int)

  function Header(hs: seq<(string, string)>, name: string): Option<string> {
    if hs == [] then None
    else if hs[0].0 == name then Some(hs[0].1)
    else Header(hs[1..], name)
  }

  /** The request `make_request` sends for the query document `doc`. */
  function BuildRequest(api: Api, doc: Json): (r: Request)
    ensures r.verb == "POST" && r.url == ApiUrl && r.timeout == TimeoutSeconds && r.body == doc
    ensures Header(r.headers, "X-Account") == Some(api.subdomain)
    ensures Header(r.headers, "X-Auth-Token") == Some(api.token)
    ensures Header(r.headers, "Content-Type") == Some("application/json")
  {
    var hs := [("X-Account", api.subdomain), ("X-Auth-Token", api.token), ("Content-Type", "application/json")];
    assert hs[0].0 != hs[1].0 && hs[0].0 != hs[2].0 && hs[1].0 != hs[2].0 by {
      assert hs[0].0[3] == 'c' && hs[1].0[3] == 'u' && hs[2].0[0] == 'C';
    }
    assert Header(hs[2..], "Content-Type") == Some("application/json");
    assert Header(hs[1..], "Content-Type") == Some("application/json");
    Request("POST", ApiUrl, hs, doc, TimeoutSeconds)
  }

  // ---------------------------------------------------------------------------
  // Query documents

  /** The three reads the cache makes. */
  datatype Query =
    | ProjectQuery
    | HistoryQuery(since: string)
    | CardsQuery(ids: seq<Json>)

  /** `{"query": {"_root": [{"account": selection}]}}` */
  function Envelope(selection: seq<Json>): Json {
    Obj([("query", Obj([("_root", Arr([Obj([("account", Arr(selection))])]))]))])
  }

  function ProjectSelection(): seq<Json> {
    [Str("name"),
     Obj([("decks", Arr([Str("id"), Str("title"), Str("project"),
                         Obj([("cards", Arr([Str("title"), Str("content")]))])]))])]
  }

  const ActivitiesRelation := "activities("
  const HistoryKeyPrefix := ActivitiesRelation + "{\"createdAt\": {\"op\": \"gt\", \"value\": \""
  const HistoryKeySuffix := "\"}})"

  /** The relation name of `fetch_history`, with the time filter spelled into it. */
  function HistoryKey(since: string): string {
    HistoryKeyPrefix + since + HistoryKeySuffix
  }

  function HistoryFields(): Json {
    Arr([Str("card"), Str("createdAt"), Str("changer")])
  }

  function IdFilter(ids: seq<Json>): Json {
    Obj([("id", Obj([("op", Str("in")), ("value", Arr(ids))]))])
  }

  /** The `data` document `fetch_project`, `fetch_history` and `fetch_cards` send. */
  function Document(q: Query): (doc: Json)
    ensures Selection(doc).Some?
  {
    match q
    case ProjectQuery => Envelope(ProjectSelection())
    case HistoryQuery(since) => Envelope([Obj([(HistoryKey(since), HistoryFields())])])
    case CardsQuery(ids) => Envelope([Obj([("cards", Arr([IdFilter(ids), Str("title"), Str("content")]))])])
  }

  /** The value of an object that has exactly one key, `key`. */
  function Single(j: Json, key: string): Option<Json> {
    if j.Obj? && |j.entries| == 1 && j.entries[0].0 == key then Some(j.entries[0].1) else None
  }

  /** The one element of a one-element list. */
  function Only(j: Json): Option<Json> {
    if j.Arr? && |j.items| == 1 then Some(j.items[0]) else None
  }

  /** The `account` selection of a query document. */
  function Selection(doc: Json): Option<Json> {
    match Single(doc, "query")
    case None => None
    case Some(q) =>
      match Single(q, "_root")
      case None => None
      case Some(root) =>
        match Only(root)
        case None => None
        case Some(account) => Single(account, "account")
  }

  /** The card ids of an `{"id": {"op": "in", "value": [...]}}` filter. */
  function FilteredIds(f: Json): Option<seq<Json>> {
    match Single(f, "id")
    case None => None
    case Some(cond) =>
      if cond.Obj? && |cond.entries| == 2 && cond.entries[0] == ("op", Str("in"))
         && cond.entries[1].0 == "value" && cond.entries[1].1.Arr?
      then Some(cond.entries[1].1.items)
      else None
  }

  /** The time inside a `fetch_history` relation name. */
  function SinceOf(key: string): Option<string> {
    if |key| >= |HistoryKeyPrefix| + |HistoryKeySuffix|
       && key[..|HistoryKeyPrefix|] == HistoryKeyPrefix
       && key[|key| - |HistoryKeySuffix|..] == HistoryKeySuffix
    then Some(key[|HistoryKeyPrefix|..|key| - |HistoryKeySuffix|])
    else None
  }

  /**
   * Reads a query document back: the project selection, a card selection
   * filtered by `id in [...]` carrying `title` and `content`, or an activity
   * selection filtered by `createdAt > since` carrying `card`, `createdAt` and
   * `changer`.
   */
  function ReadQuery(doc: Json): Option<Query> {
    match Selection(doc)
    case None => None
    case Some(sel) =>
      if sel == Arr(ProjectSelection()) then Some(ProjectQuery)
      else match Only(sel)
        case None => None
        case Some(rel) =>
          if !rel.Obj? || |rel.entries| != 1 then None
          else
            var (key, fields) := rel.entries[0];
            if key == "cards" then
              if fields.Arr? && |fields.items| == 3
                 && fields.items[1] == Str("title") && fields.items[2] == Str("content")
              then match FilteredIds(fields.items[0])
                case None => None
                case Some(ids) => Some(CardsQuery(ids))
              else None
            else if fields == HistoryFields() then
              match SinceOf(key)
              case None => None
              case Some(since) => Some(HistoryQuery(since))
            else None
  }

  /**
   * Each query document carries exactly its parameters: the time bound of a
   * history query and the id list of a card query are read back unchanged.
   */
  lemma ReadDocument(q: Query)
    ensures ReadQuery(Document(q)) == Some(q)
  {
    match q
    case ProjectQuery =>
    case HistoryQuery(since) =>
      var key := HistoryKey(since);
      assert key[..|HistoryKeyPrefix|] == HistoryKeyPrefix;
      assert key[|key| - |HistoryKeySuffix|..] == HistoryKeySuffix;
      assert key[|HistoryKeyPrefix|..|key| - |HistoryKeySuffix|] == since;
      assert key != "cards" by {
        assert HistoryKeyPrefix[0] == 'a';
        assert key[0] == HistoryKeyPrefix[0];
      }
      assert Arr([Obj([(key, HistoryFields())])]) != Arr(ProjectSelection()) by {
        assert |ProjectSelection()| == 2;
      }
    case CardsQuery(ids) =>
  }
}
