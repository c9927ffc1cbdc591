/**
 * The `/chat/` handler of backend/routers/chat.py: request validation,
 * the page clamp, the choice of the query to search, the arguments of the
 * search call and the response record. The seed hash (`_stable_seed`,
 * MD5), the random generator it seeds and the reply writer are given as
 * functions.
 */
module ChatRouter {
  import opened Wrappers
  import opened Text
  import opened SearchIndex
  import opened Ranking
  import SearchService

  /** `limit = 5` */
  const PageSize: nat := 5

  /** The request body `ChatIn`; `page` and `last_query` may be missing (None). */
  datatype ChatIn = ChatIn(sessionId: string, message: string, page: Option<int>, lastQuery: Option<string>)

  /** `HTTPException(status_code, detail)` */
  datatype HttpError = HttpError(status: nat, detail: string)

  /**
   * What the handler hands to the engine: the effective query, the page,
   * the seed it stores as `result_seed`, and the `limit`, `offset` and
   * `exclude_codes` arguments of `search_candidates`.
   */
  datatype SearchCall = SearchCall(query: string, page: nat, seed: nat, limit: nat, offset: nat, exclude: seq<string>)

  /** The dict `_as_response` builds. */
  datatype Response = Response(content: string, products: seq<Payload>, page: nat, lastQuery: string)

  /** `bool(x)` on an optional string: present and non-empty. */
  predicate Truthy(s: Option<string>) {
    s.Some? && s.value != []
  }

  /** `max(0, int(page or 0))`: the smallest page that is not negative and not below the one asked for. */
  function ClampPage(page: Option<int>): (r: nat)
    ensures page.Some? ==> r as int >= page.value
    ensures r == 0 || page == Some(r as int)
  {
    if page.Some? && page.value > 0 then page.value else 0
  }

  /** `in_.last_query if page > 0 and in_.last_query else msg` */
  function EffectiveQuery(msg: string, page: nat, lastQuery: Option<string>): (r: string)
    ensures page > 0 && Truthy(lastQuery) ==> r == lastQuery.value
    ensures !(page > 0 && Truthy(lastQuery)) ==> r == msg
  {
    if page > 0 && Truthy(lastQuery) then lastQuery.value else msg
  }

  /**
   * Lines 29-46 of the handler: a request whose message is empty once
   * stripped is refused with status 400; any other one becomes a search
   * for the effective query, five results from `page * 5` on, nothing
   * excluded, seeded from the session and that query.
   */
  function Plan(req: ChatIn, seed: (string, string) -> nat): (r: Result<SearchCall, HttpError>)
    ensures r.Failure? <==> PyStrip(req.message) == []
    ensures r.Failure? ==> r.error == HttpError(400, "message is required")
    ensures r.Success? ==>
      var c := r.value;
      && c.page == ClampPage(req.page)
      && c.limit == PageSize && c.offset == c.page * PageSize && c.exclude == []
      && c.query == EffectiveQuery(PyStrip(req.message), c.page, req.lastQuery)
      && c.seed == seed(req.sessionId, c.query)
      && c.query != []
  {
    var msg := PyStrip(req.message);
    if msg == [] then Failure(HttpError(400, "message is required"))
    else
      var page := ClampPage(req.page);
      var query := EffectiveQuery(msg, page, req.lastQuery);
      Success(SearchCall(query, page, seed(req.sessionId, query), PageSize, page * PageSize, []))
  }

  /**
   * Pages continue one ranking: a first page asked with a message, and a
   * later page asked with that message as `last_query`, search the same
   * query with the same seed; only the offset moves, by 5 per page.
   */
  lemma PagesShareRanking(first: ChatIn, next: ChatIn, seed: (string, string) -> nat)
    requires first.page.None? || first.page.value <= 0
    requires PyStrip(first.message) != []
    requires next.sessionId == first.sessionId && PyStrip(next.message) != []
    requires next.page.Some? && next.page.value > 0 && next.lastQuery == Some(PyStrip(first.message))
    ensures Plan(first, seed).Success? && Plan(next, seed).Success?
    ensures Plan(next, seed).value.query == Plan(first, seed).value.query
    ensures Plan(next, seed).value.seed == Plan(first, seed).value.seed
    ensures Plan(first, seed).value.offset == 0 && Plan(next, seed).value.offset == next.page.value * PageSize
  {
  }

  /** With a positive page and a `last_query`, the message itself does not change what is searched. */
  lemma LaterPagesIgnoreMessage(a: ChatIn, b: ChatIn, seed: (string, string) -> nat)
    requires a.sessionId == b.sessionId && a.page == b.page && a.lastQuery == b.lastQuery
    requires PyStrip(a.message) != [] && PyStrip(b.message) != []
    requires a.page.Some? && a.page.value > 0 && Truthy(a.lastQuery)
    ensures Plan(a, seed) == Plan(b, seed)
  {
  }

  /**
   * The handler (lines 29-52): a refused request changes nothing; any
   * other one runs `search_candidates` on the planned call, with the
   * generator seeded from `result_seed`, and the response echoes the page
   * and the effective query and carries the search result as it is.
   * `reply` stands for `ask_chatgpt(build_context(state, cand))`.
   */
  method Chat(engine: SearchService.SearchEngine, req: ChatIn, seed: (string, string) -> nat,
              gen: nat -> (nat -> real), reply: (SearchCall, seq<Payload>) -> string)
    returns (r: Result<Response, HttpError>)
    requires engine.Inv()
    modifies engine
    ensures r.Failure? <==> Plan(req, seed).Failure?
    ensures r.Failure? ==> r.error == Plan(req, seed).error && unchanged(engine)
    ensures r.Success? ==>
      var c := Plan(req, seed).value;
      var cand := SearchResult(engine.tok, engine.fields, engine.productos, engine.idf, engine.vocab.keys,
                               gen(c.seed), c.query, c.limit, c.offset, {});
      r.value == Response(reply(c, cand), cand, c.page, c.query)
    ensures r.Success? ==> engine.Refreshed()
  {
    var plan := Plan(req, seed);
    if plan.Failure? {
      return Failure(plan.error);
    }
    var c := plan.value;
    var cand := engine.SearchCandidates(c.query, gen(c.seed), c.limit, c.offset, c.exclude);
    assert SetOf(c.exclude) == {};
    r := Success(Response(reply(c, cand), cand, c.page, c.query));
  }
}
