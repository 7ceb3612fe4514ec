/**
 * The mailbox harvest: list the user's messages through the pager and run
 * one keyword search over messages, both with the "Microsoft Office" client
 * token the session caches.
 */
module Emails {
  import opened Strings
  import opened Graph

  const MessagesPath := "me/messages"
  const MessageEntities: seq<string> := ["message"]

  /** How a run of the module ends; a missing search result makes the hit count raise a TypeError. */
  datatype Outcome = Done | Crashed

  /** The network's answers during one run: the token exchange, the message pages, the search. */
  datatype Replies = Replies(exchange: TokenReply, messages: seq<Page>, search: SearchReply)

  /** The search sent for the session's keywords: messages matching any keyword. */
  function MessageSearch(keywords: seq<string>): (q: SearchQuery)
    ensures q.entityTypes == ["message"]
    ensures |keywords| == 1 ==> q.queryString == keywords[0]
  {
    SearchQuery(MessageEntities, OrQuery(keywords))
  }

  /**
   * `Emails.fetch`: make sure a "Microsoft Office" token is cached; without
   * one nothing else happens. With one, fetch every message page and store
   * the collection when it is non-empty, then search the messages and store
   * the reply when it reports hits. A failed search crashes the run after
   * the message file has been written.
   */
  method Fetch(st: ModuleState, hs: HeaderStore, out: OutputFiles, scopes: seq<string>, net: Replies)
      returns (outcome: Outcome, calls: seq<Call>)
    modifies st, hs, out
    ensures st.sharepointRefreshToken == old(st.sharepointRefreshToken)
    ensures var exchanged := ExchangeStep(old(st.msofficeRefreshToken), st, "Microsoft Office", scopes, net.exchange).1;
      |exchanged| <= |calls| && calls[..|exchanged|] == exchanged && NoExchange(calls[|exchanged|..])
    ensures var (token, exchanged) := ExchangeStep(old(st.msofficeRefreshToken), st, "Microsoft Office", scopes, net.exchange);
      && st.msofficeRefreshToken == token
      && (token.None? ==>
            outcome == Done && calls == exchanged && hs.headers == old(hs.headers) && out.files == old(out.files))
      && (token.Some? ==>
            var messages := Expected(net.messages, DefaultLimit);
            var getHeaders := old(hs.headers)["Authorization" := Bearer(token.value)];
            var postHeaders := getHeaders["content-type" := "application/json"];
            var results := SearchOutcome(net.search);
            var files := StoredPages(old(out.files), OutputPath(st.outputDir, st.tokenEmail + ".emails.json"), messages);
            && calls == exchanged + GetCalls(PageUrls(MessagesPath, net.messages, DefaultLimit), getHeaders)
                 + [Post(SearchUrl, SearchBody([MessageSearch(st.searchKeywords)]), postHeaders)]
            && hs.headers == postHeaders
            && outcome == (if results.None? then Crashed else Done)
            && out.files == StoredHits(files, OutputPath(st.outputDir, st.tokenEmail + ".searchemails.json"), results))
  {
    var exchanged: seq<Call> := [];
    if st.msofficeRefreshToken.None? {
      var step := ExchangeStep(st.msofficeRefreshToken, st, "Microsoft Office", scopes, net.exchange);
      st.msofficeRefreshToken := step.0;
      exchanged := step.1;
    }
    calls := exchanged;
    outcome := Done;
    if st.msofficeRefreshToken.Some? {
      var token := st.msofficeRefreshToken.value;
      var messages, gets := MsGraphFetch(hs, MessagesPath, token, DefaultLimit, net.messages);
      WritePages(out, st.tokenEmail + ".emails.json", st.outputDir, messages);
      var results, post := MsGraphSearch(hs, MessageEntities, OrQuery(st.searchKeywords), token, net.search);
      calls := calls + gets + [post];
      assert hs.headers == old(hs.headers)["Authorization" := Bearer(token)]["content-type" := "application/json"];
      if results.None? {
        outcome := Crashed;
        return;
      }
      WriteHits(out, st.tokenEmail + ".searchemails.json", st.outputDir, results.value);
    }
  }
}
