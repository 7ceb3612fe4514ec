/**
 * The SharePoint harvest: one keyword search over drive items, list items
 * and lists, with the "SharePoint" client token the session caches.
 */
module SharePoint {
  import opened Strings
  import opened Graph

  const DriveEntities: seq<string> := ["driveItem", "listItem", "list"]

  /** How a run of the module ends; a missing search result makes the hit count raise a TypeError. */
  datatype Outcome = Done | Crashed

  /** The network's answers during one run: the token exchange and the search. */
  datatype Replies = Replies(exchange: TokenReply, search: SearchReply)

  /**
   * `SharePoint.fetch`: make sure a "SharePoint" token is cached; without
   * one nothing else happens. With one, search the three entity types for
   * the keywords and store the reply when it reports hits. A failed search
   * crashes the run.
   */
  method Fetch(st: ModuleState, hs: HeaderStore, out: OutputFiles, scopes: seq<string>, net: Replies)
      returns (outcome: Outcome, calls: seq<Call>)
    modifies st, hs, out
    ensures st.msofficeRefreshToken == old(st.msofficeRefreshToken)
    ensures var exchanged := ExchangeStep(old(st.sharepointRefreshToken), st, "SharePoint", scopes, net.exchange).1;
      |exchanged| <= |calls| && calls[..|exchanged|] == exchanged && NoExchange(calls[|exchanged|..])
    ensures var (token, exchanged) := ExchangeStep(old(st.sharepointRefreshToken), st, "SharePoint", scopes, net.exchange);
      && st.sharepointRefreshToken == token
      && (token.None? ==>
            outcome == Done && calls == exchanged && hs.headers == old(hs.headers) && out.files == old(out.files))
      && (token.Some? ==>
            var postHeaders := old(hs.headers)["Authorization" := Bearer(token.value)]["content-type" := "application/json"];
            var results := SearchOutcome(net.search);
            && calls == exchanged + [Post(SearchUrl, SearchBody([SearchQuery(DriveEntities, OrQuery(st.searchKeywords))]), postHeaders)]
            && hs.headers == postHeaders
            && outcome == (if results.None? then Crashed else Done)
            && out.files == StoredHits(old(out.files), OutputPath(st.outputDir, st.tokenEmail + ".search.json"), results))
  {
    var exchanged: seq<Call> := [];
    if st.sharepointRefreshToken.None? {
      var step := ExchangeStep(st.sharepointRefreshToken, st, "SharePoint", scopes, net.exchange);
      st.sharepointRefreshToken := step.0;
      exchanged := step.1;
    }
    calls := exchanged;
    outcome := Done;
    if st.sharepointRefreshToken.Some? {
      var token := st.sharepointRefreshToken.value;
      var results, post := MsGraphSearch(hs, DriveEntities, OrQuery(st.searchKeywords), token, net.search);
      calls := calls + [post];
      if results.None? {
        outcome := Crashed;
        return;
      }
      WriteHits(out, st.tokenEmail + ".search.json", st.outputDir, results.value);
    }
  }
}
