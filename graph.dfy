/**
 * Microsoft Graph access shared by every harvest module: the per-run
 * session state, the refresh-token exchange, the collection pager that
 * follows `@odata.nextLink` continuation links (OData JSON Format 4.01,
 * section 4.5.5), the search call, and the output-file writer.
 *
 * The network is replaced by oracles: the pager reads its replies from a
 * sequence of page records, the search call and the token exchange from a
 * single reply value. Every request the model issues is returned as a
 * `Call`, so what was sent, and in which order, can be stated.
 */
module Graph {
  import opened Strings

  // ---------------------------------------------------------------------
  // Constants of rephresh/rephresh/utils.py

  const SearchKeywords: seq<string> := ["password", "username"]

  const TargetClientIds: map<string, string> := map[
    "Intune" := "9ba1a5c7-f17a-4de9-a1f1-6178c8d51223",
    "OneDrive" := "b26aadf8-566f-4478-926f-589f601d9c74",
    "SharePoint" := "d326c1ce-6cc6-4de2-bebc-4591e5e13ef0",
    "Microsoft Office" := "d3590ed6-52b3-4102-aeff-aad2292ab01c",
    "Office 365 Management" := "00b41c95-dab0-4487-9791-b9d2c32c80f2"
  ]

  /** The outbound request headers (a browser-like set); the pager and search add to this one map. */
  const OpsecHeaders: map<string, string> := map[
    "accept" := "text/html,application/xhtml+xml,application/xml;q=0.9,image/webp,*/*;q=0.8",
    "user-agent" := "Mozilla/5.0 (Windows NT 10.0; Win64; x64) AppleWebKit/537.36 (KHTML, like Gecko) Chrome/99.0.4844.51 Safari/537.36",
    "accept-encoding" := "gzip, deflate, br",
    "accept-language" := "en-US,en;q=0.5",
    "upgrade-insecure-requests" := "1"
  ]

  const GraphBase := "https://graph.microsoft.com/v1.0/"
  const SearchUrl := "https://graph.microsoft.com/v1.0/search/query"
  const LoginAuthority := "https://login.microsoftonline.com/"
  const DefaultLimit := 10

  // ---------------------------------------------------------------------
  // Tokens and the session

  /** A token-endpoint reply; `error` is present exactly when the reply carries an `error` key. */
  datatype TokenReply = TokenReply(error: Option<string>, accessToken: string, refreshToken: string)

  /** A refresh-token grant sent on behalf of one client identity. */
  datatype ExchangeRequest = ExchangeRequest(refreshToken: string, clientId: string, scopes: seq<string>, authority: string)

  /** `search_keywords or SEARCH_KEYWORDS`: a missing or empty list falls back to the defaults. */
  function KeywordsOrDefault(keywords: Option<seq<string>>): (r: seq<string>)
    ensures |r| > 0
    ensures keywords.Some? && keywords.value != [] ==> r == keywords.value
    ensures keywords.None? || keywords.value == [] ==> r == SearchKeywords
  {
    if keywords.Some? && keywords.value != [] then keywords.value else SearchKeywords
  }

  /** The per-run session every module shares. */
  class ModuleState {
    const outputDir: string
    const domain: string
    const tenantId: string
    const tokenEmail: string
    const refreshToken: string
    const searchKeywords: seq<string>
    /** Cached exchange result for the "Microsoft Office" client; None stands for Python's None. */
    var msofficeRefreshToken: Option<TokenReply>
    /** Cached exchange result for the "SharePoint" client. */
    var sharepointRefreshToken: Option<TokenReply>

    constructor (outputDir: string, domain: string, tenantId: string, tokenEmail: string,
                 refreshToken: string, searchKeywords: Option<seq<string>>)
      ensures this.outputDir == outputDir && this.domain == domain && this.tenantId == tenantId
      ensures this.tokenEmail == tokenEmail && this.refreshToken == refreshToken
      ensures this.searchKeywords == KeywordsOrDefault(searchKeywords)
      ensures msofficeRefreshToken == None && sharepointRefreshToken == None
    {
      this.outputDir := outputDir;
      this.domain := domain;
      this.tenantId := tenantId;
      this.tokenEmail := tokenEmail;
      this.refreshToken := refreshToken;
      this.searchKeywords := KeywordsOrDefault(searchKeywords);
      msofficeRefreshToken := None;
      sharepointRefreshToken := None;
    }
  }

  /**
   * `fetch_refresh_token`: exchange the session's seed refresh token for a
   * token of the named client. The request goes to the tenant's authority
   * with the client's registered id; the reply is returned unchanged unless
   * it carries an error, in which case the result is None.
   */
  function FetchRefreshToken(st: ModuleState, clientName: string, scopes: seq<string>, reply: TokenReply)
    : (r: (ExchangeRequest, Option<TokenReply>))
    requires clientName in TargetClientIds
    ensures r.0.clientId == TargetClientIds[clientName]
    ensures r.0.refreshToken == st.refreshToken && r.0.scopes == scopes
    ensures r.0.authority == LoginAuthority + st.tenantId
    ensures r.1.None? <==> reply.error.Some?
    ensures r.1.Some? ==> r.1.value == reply
  {
    var request := ExchangeRequest(st.refreshToken, TargetClientIds[clientName], scopes, LoginAuthority + st.tenantId);
    if reply.error.Some? then (request, None) else (request, Some(reply))
  }

  /**
   * The cache step each harvest module starts with: a cached token is used
   * as is; otherwise the seed token is exchanged for the named client and
   * the outcome, None on failure, is what gets cached.
   */
  function ExchangeStep(cached: Option<TokenReply>, st: ModuleState, clientName: string, scopes: seq<string>,
                        reply: TokenReply): (r: (Option<TokenReply>, seq<Call>))
    requires clientName in TargetClientIds
    ensures cached.Some? ==> r == (cached, [])
    ensures cached.None? ==> r.0 == FetchRefreshToken(st, clientName, scopes, reply).1
    ensures cached.None? ==> r.1 == [Exchange(FetchRefreshToken(st, clientName, scopes, reply).0)]
  {
    if cached.Some? then (cached, [])
    else
      var (request, token) := FetchRefreshToken(st, clientName, scopes, reply);
      (token, [Exchange(request)])
  }

  /** A successful exchange is cached, so the next module using that client exchanges nothing. */
  lemma ExchangeAtMostOnce(st: ModuleState, clientName: string, scopes: seq<string>, first: TokenReply, second: TokenReply)
    requires clientName in TargetClientIds
    requires first.error.None?
    ensures var (token, _) := ExchangeStep(None, st, clientName, scopes, first);
      token == Some(first) && ExchangeStep(token, st, clientName, scopes, second) == (token, [])
  {
  }

  // ---------------------------------------------------------------------
  // Outbound calls and the shared header map

  datatype SearchQuery = SearchQuery(entityTypes: seq<string>, queryString: string)

  /** The JSON body `{requests: [{entityTypes: ..., query: {queryString: ...}}]}`. */
  datatype SearchBody = SearchBody(requests: seq<SearchQuery>)

  datatype Call =
    | Exchange(request: ExchangeRequest)
    | Get(url: string, headers: map<string, string>)
    | Post(url: string, body: SearchBody, headers: map<string, string>)

  /** Number of token exchanges in a call trace made for the given client id. */
  function ExchangesFor(calls: seq<Call>, clientId: string): nat
  {
    if calls == [] then 0
    else (if calls[0].Exchange? && calls[0].request.clientId == clientId then 1 else 0) + ExchangesFor(calls[1..], clientId)
  }

  predicate NoExchange(calls: seq<Call>)
  {
    forall i :: 0 <= i < |calls| ==> !calls[i].Exchange?
  }

  lemma {:induction false} ExchangesForAppend(a: seq<Call>, b: seq<Call>, clientId: string)
    ensures ExchangesFor(a + b, clientId) == ExchangesFor(a, clientId) + ExchangesFor(b, clientId)
  {
    if a == [] {
      assert a + b == b;
    } else {
      assert (a + b)[1..] == a[1..] + b;
      ExchangesForAppend(a[1..], b, clientId);
    }
  }

  lemma {:induction false} ExchangesForNoExchange(calls: seq<Call>, clientId: string)
    requires NoExchange(calls)
    ensures ExchangesFor(calls, clientId) == 0
  {
    if calls != [] {
      ExchangesForNoExchange(calls[1..], clientId);
    }
  }

  /**
   * A module's trace is its exchange step followed by requests that
   * exchange nothing, so it counts the step's exchanges only.
   */
  lemma ExchangesOfModule(prefix: seq<Call>, calls: seq<Call>, exchanged: seq<Call>, clientId: string)
    requires |exchanged| <= |calls| && calls[..|exchanged|] == exchanged && NoExchange(calls[|exchanged|..])
    ensures ExchangesFor(prefix + calls, clientId) == ExchangesFor(prefix, clientId) + ExchangesFor(exchanged, clientId)
  {
    assert calls == exchanged + calls[|exchanged|..];
    ExchangesForAppend(prefix, calls, clientId);
    ExchangesForAppend(exchanged, calls[|exchanged|..], clientId);
    ExchangesForNoExchange(calls[|exchanged|..], clientId);
  }

  /** The RFC 6750 (section 2.1) bearer credential for a token. */
  function Bearer(token: TokenReply): string
  {
    "Bearer " + token.accessToken
  }

  /** The module-level header dictionary; every request aliases it and updates it in place. */
  class HeaderStore {
    var headers: map<string, string>

    constructor ()
      ensures headers == OpsecHeaders
    {
      headers := OpsecHeaders;
    }
  }

  // ---------------------------------------------------------------------
  // The collection pager

  /** One element of a collection's `value` array, kept as its JSON text. */
  type Item = string

  /**
   * What the server answers to one GET: the `value` array, `@odata.context`
   * and `@odata.nextLink` (each possibly absent), whether the body carries an
   * `error` key, and whether the request raised a transport fault instead.
   */
  datatype Page = Page(value: Option<seq<Item>>, context: Option<string>, nextLink: Option<string>,
                       error: bool, fault: bool)

  /** The accumulated `{"@odata.context": ..., "value": [...]}` result. */
  datatype PageResult = PageResult(context: Option<string>, value: seq<Item>)

  /** The reply to the k-th GET; a server that has run out of scripted replies faults. */
  function Reply(pages: seq<Page>, k: nat): Page
  {
    if k < |pages| then pages[k] else Page(None, None, None, false, true)
  }

  /** Python truthiness of an optional string: present and non-empty. */
  predicate Truthy(s: Option<string>)
  {
    s.Some? && s.value != ""
  }

  predicate Failed(p: Page)
  {
    p.error || p.fault
  }

  /** The loop goes on after this page: it succeeded and names a next page. */
  predicate Continues(p: Page)
  {
    !Failed(p) && Truthy(p.nextLink)
  }

  /**
   * Number of GETs issued once `k` have been issued and the next URL is
   * truthy. The guard `count <= limit` is tested before `count` grows, so up
   * to `limit + 1` requests go out.
   */
  function IssuedFrom(pages: seq<Page>, limit: int, k: nat): (n: nat)
    ensures k <= n
    ensures n == k || n <= limit + 1
    ensures n > k ==> k <= limit
    ensures forall j :: k <= j < n - 1 ==> Continues(Reply(pages, j))
    ensures n > k ==> n == limit + 1 || !Continues(Reply(pages, n - 1))
    decreases limit + 1 - k
  {
    if k > limit then k
    else if Continues(Reply(pages, k)) then IssuedFrom(pages, limit, k + 1)
    else k + 1
  }

  /** Number of GETs `msgraph_fetch` issues against the scripted server. */
  function Issued(pages: seq<Page>, limit: int): (n: nat)
    ensures n <= if limit < 0 then 0 else limit + 1
  {
    IssuedFrom(pages, limit, 0)
  }

  /** Number of pages whose content reached the result: the last page issued is dropped when it failed. */
  function Absorbed(pages: seq<Page>, limit: int): (a: nat)
    ensures a <= |pages| && a <= Issued(pages, limit)
    ensures forall j :: 0 <= j < a ==> !Failed(pages[j])
  {
    var n := Issued(pages, limit);
    var m := if n > 0 && Failed(Reply(pages, n - 1)) then n - 1 else n;
    IssuedPrefixSucceeds(pages, limit, m);
    m
  }

  lemma IssuedPrefixSucceeds(pages: seq<Page>, limit: int, m: nat)
    requires var n := Issued(pages, limit); m == if n > 0 && Failed(Reply(pages, n - 1)) then n - 1 else n
    ensures m <= |pages|
    ensures forall j :: 0 <= j < m ==> !Failed(pages[j])
  {
    var n := Issued(pages, limit);
    forall j: nat | j < m
      ensures j < |pages| && !Failed(pages[j])
    {
      if j < n - 1 {
        assert Continues(Reply(pages, j));
      } else {
        assert !Failed(Reply(pages, j));
      }
    }
    if m > 0 {
      assert !Failed(Reply(pages, m - 1));
    }
  }

  function ValuesOf(p: Page): seq<Item>
  {
    if p.value.Some? then p.value.value else []
  }

  /** In-order concatenation of the pages' `value` arrays. */
  function Gather(ps: seq<Page>): seq<Item>
  {
    if ps == [] then [] else Gather(ps[..|ps| - 1]) + ValuesOf(ps[|ps| - 1])
  }

  /** The context after processing `ps`: each page's context is taken while the stored one is falsy. */
  function ContextOf(ps: seq<Page>): Option<string>
  {
    if ps == [] then None
    else
      var c := ContextOf(ps[..|ps| - 1]);
      if Truthy(c) then c else ps[|ps| - 1].context
  }

  function Absorb(ps: seq<Page>): PageResult
  {
    PageResult(ContextOf(ps), Gather(ps))
  }

  /** One more page: its context is taken while the stored one is falsy, and its values are appended. */
  lemma AbsorbStep(ps: seq<Page>, p: Page)
    ensures Absorb(ps + [p]) ==
      PageResult(if Truthy(ContextOf(ps)) then ContextOf(ps) else p.context, Gather(ps) + ValuesOf(p))
  {
    assert (ps + [p])[..|ps|] == ps;
  }

  /** What `msgraph_fetch` returns against the scripted server. */
  function Expected(pages: seq<Page>, limit: int): PageResult
  {
    Absorb(pages[..Absorbed(pages, limit)])
  }

  /** The URL after the j-th page: its `@odata.nextLink`. */
  function NextOf(pages: seq<Page>, j: nat): string
  {
    if j < |pages| && pages[j].nextLink.Some? then pages[j].nextLink.value else ""
  }

  /** The URLs the pager requests: the collection URL, then each page's next link. */
  function PageUrls(urlPath: string, pages: seq<Page>, limit: int): seq<string>
  {
    seq(Issued(pages, limit), i requires 0 <= i => if i == 0 then GraphBase + urlPath else NextOf(pages, i - 1))
  }

  /**
   * The loop of `msgraph_fetch`: GET the first URL, then each page's
   * `@odata.nextLink` while it is truthy and at most `limit + 1` requests
   * have gone out; stop at an error page or a transport fault and return
   * what has been accumulated.
   */
  method FetchPages(urlPath: string, limit: int, pages: seq<Page>) returns (r: PageResult, urls: seq<string>)
    ensures |urls| == Issued(pages, limit)
    ensures urls != [] ==> urls[0] == GraphBase + urlPath
    ensures forall i :: 0 < i < |urls| ==> i - 1 < |pages| && pages[i - 1].nextLink == Some(urls[i])
    ensures urls == PageUrls(urlPath, pages, limit)
    ensures r == Expected(pages, limit)
  {
    var url: Option<string> := Some(GraphBase + urlPath);
    r := PageResult(None, []);
    urls := [];
    var count: nat := 0;
    while Truthy(url) && count <= limit
      invariant count <= |pages| && |urls| == count
      invariant forall j :: 0 <= j < count ==> !Failed(pages[j])
      invariant url == if count == 0 then Some(GraphBase + urlPath) else pages[count - 1].nextLink
      invariant Issued(pages, limit) == if Truthy(url) then IssuedFrom(pages, limit, count) else count
      invariant r == Absorb(pages[..count])
      invariant urls != [] ==> urls[0] == GraphBase + urlPath
      invariant forall i :: 0 < i < count ==> pages[i - 1].nextLink == Some(urls[i])
      decreases limit + 1 - count
    {
      var page := Reply(pages, count);
      urls := urls + [url.value];
      if Failed(page) {
        // an `error` body breaks out of the loop and a RequestException
        // returns from it: either way the accumulation so far is the result
        assert Issued(pages, limit) == count + 1;
        AbsorbedCount(pages, limit, count);
        return;
      }
      assert pages[..count + 1] == pages[..count] + [page];
      AbsorbStep(pages[..count], page);
      // the context is taken while the stored one is falsy; a missing or
      // empty `value` array adds nothing
      r := PageResult(if Truthy(r.context) then r.context else page.context, r.value + ValuesOf(page));
      url := page.nextLink;
      count := count + 1;
    }
    AbsorbedCount(pages, limit, count);
  }

  /** Where the loop stops, the pages absorbed are those before the stopping point. */
  lemma AbsorbedCount(pages: seq<Page>, limit: int, count: nat)
    requires count <= |pages| && forall j :: 0 <= j < count ==> !Failed(pages[j])
    requires Issued(pages, limit) == count || (Issued(pages, limit) == count + 1 && Failed(Reply(pages, count)))
    ensures Expected(pages, limit) == Absorb(pages[..count])
  {
    if count > 0 && Issued(pages, limit) == count {
      assert !Failed(Reply(pages, count - 1));
    }
  }

  /** The loop issues exactly `limit + 1` requests when every page it sees points to another. */
  lemma {:induction false} BoundIsReached(pages: seq<Page>, limit: int, k: nat)
    requires k <= limit + 1
    requires forall j :: k <= j <= limit ==> Continues(Reply(pages, j))
    ensures IssuedFrom(pages, limit, k) == limit + 1
    decreases limit + 1 - k
  {
    if k <= limit {
      BoundIsReached(pages, limit, k + 1);
    }
  }

  /** With the default limit of 10, an endless chain of pages yields 11 requests, all absorbed. */
  lemma DefaultLimitAllowsEleven(pages: seq<Page>)
    requires forall j :: 0 <= j <= DefaultLimit ==> Continues(Reply(pages, j))
    ensures Issued(pages, DefaultLimit) == 11
    ensures Expected(pages, DefaultLimit) == Absorb(pages[..11])
  {
    BoundIsReached(pages, DefaultLimit, 0);
  }

  /**
   * A chain of `n` pages that ends with a page without a next link, within
   * the bound, is fetched in `n` requests and the result is the union of all
   * `n` pages.
   */
  lemma {:induction false} NaturalEnd(pages: seq<Page>, limit: int, n: nat)
    requires 1 <= n <= |pages| && n <= limit + 1
    requires forall j :: 0 <= j < n - 1 ==> Continues(pages[j])
    requires !Failed(pages[n - 1]) && !Truthy(pages[n - 1].nextLink)
    ensures Issued(pages, limit) == n
    ensures Expected(pages, limit) == Absorb(pages[..n])
  {
    NaturalEndFrom(pages, limit, n, 0);
  }

  lemma {:induction false} NaturalEndFrom(pages: seq<Page>, limit: int, n: nat, k: nat)
    requires 1 <= n <= |pages| && n <= limit + 1 && k < n
    requires forall j :: k <= j < n - 1 ==> Continues(pages[j])
    requires !Failed(pages[n - 1]) && !Truthy(pages[n - 1].nextLink)
    ensures IssuedFrom(pages, limit, k) == n
    decreases n - k
  {
    if k < n - 1 {
      NaturalEndFrom(pages, limit, n, k + 1);
    }
  }

  /**
   * If the k-th request is the first to fail (an `error` body or a transport
   * fault), the loop stops there and the result is the union of the k pages
   * before it: nothing is lost and nothing of the failed page is added.
   */
  lemma {:induction false} StopsAtFirstFailure(pages: seq<Page>, limit: int, k: nat)
    requires k <= limit
    requires forall j :: 0 <= j < k ==> Continues(Reply(pages, j))
    requires Failed(Reply(pages, k))
    ensures k <= |pages|
    ensures Issued(pages, limit) == k + 1
    ensures Expected(pages, limit) == Absorb(pages[..k])
  {
    if k > 0 {
      assert Continues(Reply(pages, k - 1));
    }
    FailureFrom(pages, limit, k, 0);
  }

  lemma {:induction false} FailureFrom(pages: seq<Page>, limit: int, k: nat, i: nat)
    requires k <= limit && i <= k
    requires forall j :: i <= j < k ==> Continues(Reply(pages, j))
    requires Failed(Reply(pages, k))
    ensures IssuedFrom(pages, limit, i) == k + 1
    decreases k - i
  {
    if i < k {
      FailureFrom(pages, limit, k, i + 1);
    }
  }

  /** Gathering distributes over concatenation of page runs. */
  lemma {:induction false} GatherAppend(a: seq<Page>, b: seq<Page>)
    ensures Gather(a + b) == Gather(a) + Gather(b)
    decreases |b|
  {
    if b == [] {
      assert a + b == a;
    } else {
      var b', last := b[..|b| - 1], b[|b| - 1];
      assert (a + b)[..|a + b| - 1] == a + b';
      assert (a + b)[|a + b| - 1] == last;
      GatherAppend(a, b');
      calc {
        Gather(a + b);
        Gather(a + b') + ValuesOf(last);
        Gather(a) + Gather(b') + ValuesOf(last);
        Gather(a) + (Gather(b') + ValuesOf(last));
        Gather(a) + Gather(b);
      }
    }
  }

  /** A page whose `value` is missing or empty contributes nothing. */
  lemma EmptyPageContributesNothing(a: seq<Page>, p: Page, b: seq<Page>)
    requires p.value.None? || p.value.value == []
    ensures Gather(a + [p] + b) == Gather(a + b)
  {
    GatherAppend(a + [p], b);
    GatherAppend(a, b);
    assert (a + [p])[..|a + [p]| - 1] == a;
  }

  /**
   * The captured context is the first truthy context among the pages; once
   * captured it is never overwritten by a later page.
   */
  lemma {:induction false} ContextIsFirstTruthy(ps: seq<Page>, i: nat)
    requires i < |ps| && Truthy(ps[i].context)
    requires forall j :: 0 <= j < i ==> !Truthy(ps[j].context)
    ensures ContextOf(ps) == ps[i].context
    decreases |ps|
  {
    if |ps| - 1 > i {
      ContextIsFirstTruthy(ps[..|ps| - 1], i);
    } else {
      ContextNoneTruthy(ps[..i]);
    }
  }

  /** Without a truthy context among the pages, the stored context is not truthy either. */
  lemma {:induction false} ContextNoneTruthy(ps: seq<Page>)
    requires forall j :: 0 <= j < |ps| ==> !Truthy(ps[j].context)
    ensures !Truthy(ContextOf(ps))
    decreases |ps|
  {
    if ps != [] {
      ContextNoneTruthy(ps[..|ps| - 1]);
    }
  }

  /** A truthy first page fixes the context of the whole result. */
  lemma FirstPageContext(pages: seq<Page>, limit: int)
    requires Absorbed(pages, limit) > 0 && Truthy(pages[0].context)
    ensures Expected(pages, limit).context == pages[0].context
  {
    ContextIsFirstTruthy(pages[..Absorbed(pages, limit)], 0);
  }

  /**
   * `msgraph_fetch`: point the shared headers' `Authorization` at the token,
   * then run the pager. Every GET carries the headers as they stand after
   * that update.
   */
  method MsGraphFetch(hs: HeaderStore, urlPath: string, token: TokenReply, limit: int, pages: seq<Page>)
      returns (r: PageResult, calls: seq<Call>)
    modifies hs
    ensures hs.headers == old(hs.headers)["Authorization" := Bearer(token)]
    ensures r == Expected(pages, limit)
    ensures calls == GetCalls(PageUrls(urlPath, pages, limit), hs.headers)
  {
    hs.headers := hs.headers["Authorization" := Bearer(token)];
    var urls;
    r, urls := FetchPages(urlPath, limit, pages);
    calls := GetCalls(urls, hs.headers);
  }

  function GetCalls(urls: seq<string>, headers: map<string, string>): (calls: seq<Call>)
    ensures |calls| == |urls|
    ensures forall i :: 0 <= i < |urls| ==> calls[i] == Get(urls[i], headers)
  {
    seq(|urls|, i requires 0 <= i < |urls| => Get(urls[i], headers))
  }

  // ---------------------------------------------------------------------
  // The search call

  datatype HitContainer = HitContainer(total: int)
  datatype SearchBlock = SearchBlock(hitsContainers: seq<HitContainer>)
  datatype SearchResponse = SearchResponse(value: seq<SearchBlock>)

  /** The reply to the search POST: a transport fault, or a body that may carry an `error` key. */
  datatype SearchReply = SearchFault | SearchReplied(error: bool, body: SearchResponse)

  /** `msgraph_search`'s result: the body unchanged, or None on an error body or a transport fault. */
  function SearchOutcome(reply: SearchReply): (r: Option<SearchResponse>)
    ensures r.Some? <==> reply.SearchReplied? && !reply.error
    ensures r.Some? ==> r.value == reply.body
  {
    if reply.SearchReplied? && !reply.error then Some(reply.body) else None
  }

  /**
   * `msgraph_search`: one POST of the query to the search endpoint. The
   * shared headers get the bearer token and a JSON content type, which stays
   * in the map for every later request.
   */
  method MsGraphSearch(hs: HeaderStore, entity: seq<string>, search: string, token: TokenReply, reply: SearchReply)
      returns (r: Option<SearchResponse>, call: Call)
    modifies hs
    ensures hs.headers == old(hs.headers)["Authorization" := Bearer(token)]["content-type" := "application/json"]
    ensures call == Post(SearchUrl, SearchBody([SearchQuery(entity, search)]), hs.headers)
    ensures r == SearchOutcome(reply)
  {
    hs.headers := hs.headers["Authorization" := Bearer(token)];
    hs.headers := hs.headers["content-type" := "application/json"];
    call := Post(SearchUrl, SearchBody([SearchQuery(entity, search)]), hs.headers);
    r := SearchOutcome(reply);
  }

  /** The query string of every search: the keywords joined by the KQL operator `OR`. */
  function OrQuery(keywords: seq<string>): string
  {
    Join(keywords, " OR ")
  }

  function ContainerTotal(hs: seq<HitContainer>): int
  {
    if hs == [] then 0 else hs[0].total + ContainerTotal(hs[1..])
  }

  /** The hit count of a search reply: the sum of `total` over every hit container of every block. */
  function HitTotal(blocks: seq<SearchBlock>): int
  {
    if blocks == [] then 0 else ContainerTotal(blocks[0].hitsContainers) + HitTotal(blocks[1..])
  }

  /** The hit count of a reply split in two is the sum of the two counts. */
  lemma {:induction false} HitTotalAppend(a: seq<SearchBlock>, b: seq<SearchBlock>)
    ensures HitTotal(a + b) == HitTotal(a) + HitTotal(b)
  {
    if a == [] {
      assert a + b == b;
    } else {
      assert (a + b)[1..] == a[1..] + b;
      HitTotalAppend(a[1..], b);
    }
  }

  predicate NonNegative(blocks: seq<SearchBlock>)
  {
    forall i, j :: 0 <= i < |blocks| && 0 <= j < |blocks[i].hitsContainers| ==> blocks[i].hitsContainers[j].total >= 0
  }

  /** With non-negative totals, a positive count is exactly the presence of a container with hits. */
  lemma {:induction false} HitTotalPositive(blocks: seq<SearchBlock>)
    requires NonNegative(blocks)
    ensures HitTotal(blocks) >= 0
    ensures HitTotal(blocks) > 0 <==>
      exists i, j :: 0 <= i < |blocks| && 0 <= j < |blocks[i].hitsContainers| && blocks[i].hitsContainers[j].total > 0
  {
    if blocks != [] {
      HitTotalPositive(blocks[1..]);
      ContainerTotalPositive(blocks[0].hitsContainers);
      if HitTotal(blocks[1..]) > 0 {
        var i, j :| 0 <= i < |blocks[1..]| && 0 <= j < |blocks[1..][i].hitsContainers| && blocks[1..][i].hitsContainers[j].total > 0;
        assert blocks[i + 1].hitsContainers[j].total > 0;
      }
      if ContainerTotal(blocks[0].hitsContainers) > 0 {
        var j :| 0 <= j < |blocks[0].hitsContainers| && blocks[0].hitsContainers[j].total > 0;
        assert blocks[0].hitsContainers[j].total > 0;
      }
      if exists i, j :: 0 <= i < |blocks| && 0 <= j < |blocks[i].hitsContainers| && blocks[i].hitsContainers[j].total > 0 {
        var i, j :| 0 <= i < |blocks| && 0 <= j < |blocks[i].hitsContainers| && blocks[i].hitsContainers[j].total > 0;
        if i > 0 {
          assert blocks[1..][i - 1].hitsContainers[j].total > 0;
        }
      }
    }
  }

  lemma {:induction false} ContainerTotalPositive(hs: seq<HitContainer>)
    requires forall j :: 0 <= j < |hs| ==> hs[j].total >= 0
    ensures ContainerTotal(hs) >= 0
    ensures ContainerTotal(hs) > 0 <==> exists j :: 0 <= j < |hs| && hs[j].total > 0
  {
    if hs != [] {
      ContainerTotalPositive(hs[1..]);
      if ContainerTotal(hs[1..]) > 0 {
        var j :| 0 <= j < |hs[1..]| && hs[1..][j].total > 0;
        assert hs[j + 1].total > 0;
      }
      if exists j :: 0 <= j < |hs| && hs[j].total > 0 {
        var j :| 0 <= j < |hs| && hs[j].total > 0;
        if j > 0 {
          assert hs[1..][j - 1].total > 0;
        }
      }
    }
  }

  /** The hit containers of every block, block by block: the generator's iteration order. */
  function Containers(blocks: seq<SearchBlock>): seq<HitContainer>
  {
    if blocks == [] then [] else blocks[0].hitsContainers + Containers(blocks[1..])
  }

  /** The nested count is the plain sum over the flattened containers, as the generator expression computes it. */
  lemma {:induction false} HitTotalIsFlatSum(blocks: seq<SearchBlock>)
    ensures HitTotal(blocks) == ContainerTotal(Containers(blocks))
  {
    if blocks != [] {
      HitTotalIsFlatSum(blocks[1..]);
      ContainerTotalAppend(blocks[0].hitsContainers, Containers(blocks[1..]));
    }
  }

  lemma {:induction false} ContainerTotalAppend(a: seq<HitContainer>, b: seq<HitContainer>)
    ensures ContainerTotal(a + b) == ContainerTotal(a) + ContainerTotal(b)
  {
    if a == [] {
      assert a + b == b;
    } else {
      assert (a + b)[1..] == a[1..] + b;
      ContainerTotalAppend(a[1..], b);
    }
  }

  // ---------------------------------------------------------------------
  // Output files

  /** What a harvest module persists. */
  datatype Artifact = PagesData(pages: PageResult) | SearchData(search: SearchResponse)

  /** The output directory's files, by path. */
  class OutputFiles {
    var files: map<string, Artifact>

    constructor ()
      ensures files == map[]
    {
      files := map[];
    }
  }

  /** `Path(output_dir, filename)`. */
  function OutputPath(outputDir: string, filename: string): string
  {
    outputDir + "/" + filename
  }

  /** `write_json`: store `data` under the file's path, replacing what was there. */
  method WriteJson(out: OutputFiles, filename: string, outputDir: string, data: Artifact)
    modifies out
    ensures out.files == old(out.files)[OutputPath(outputDir, filename) := data]
  {
    out.files := out.files[OutputPath(outputDir, filename) := data];
  }

  /** The files after `if data["value"]: write_json(...)`: a collection is stored only when it is non-empty. */
  function StoredPages(files: map<string, Artifact>, path: string, pages: PageResult): map<string, Artifact>
  {
    if |pages.value| > 0 then files[path := PagesData(pages)] else files
  }

  /** The files after a search reply is stored only when it reports hits; a failed search stores nothing. */
  function StoredHits(files: map<string, Artifact>, path: string, results: Option<SearchResponse>): map<string, Artifact>
  {
    if results.Some? && HitTotal(results.value.value) > 0 then files[path := SearchData(results.value)] else files
  }

  method WritePages(out: OutputFiles, filename: string, outputDir: string, pages: PageResult)
    modifies out
    ensures out.files == StoredPages(old(out.files), OutputPath(outputDir, filename), pages)
  {
    if |pages.value| > 0 {
      WriteJson(out, filename, outputDir, PagesData(pages));
    }
  }

  method WriteHits(out: OutputFiles, filename: string, outputDir: string, results: SearchResponse)
    modifies out
    ensures out.files == StoredHits(old(out.files), OutputPath(outputDir, filename), Some(results))
  {
    if HitTotal(results.value) > 0 {
      WriteJson(out, filename, outputDir, SearchData(results));
    }
  }
}
