/**
 * The OneDrive harvest: list the user's drives, then search file names
 * across them through the drive `search(q=...)` function, both through the
 * pager and with the "Microsoft Office" client token the session caches.
 */
module OneDrive {
  import opened Strings
  import opened Graph

  const DrivesPath := "me/drives"

  /** The network's answers during one run: the token exchange, the drive pages, the search pages. */
  datatype Replies = Replies(exchange: TokenReply, drives: seq<Page>, found: seq<Page>)

  /** The path of the by-name search: the keywords joined by `OR`, quoted as the `q` argument. */
  function SearchPath(keywords: seq<string>): string
  {
    "me/drive/search(q='" + OrQuery(keywords) + "')"
  }

  /**
   * `OneDrive.fetch`: make sure a "Microsoft Office" token is cached;
   * without one nothing else happens. With one, fetch the drive list and
   * store it when non-empty, then page through the by-name search, which
   * runs whether or not drives were found, and store it when non-empty.
   */
  method Fetch(st: ModuleState, hs: HeaderStore, out: OutputFiles, scopes: seq<string>, net: Replies)
      returns (calls: seq<Call>)
    modifies st, hs, out
    ensures st.sharepointRefreshToken == old(st.sharepointRefreshToken)
    ensures var exchanged := ExchangeStep(old(st.msofficeRefreshToken), st, "Microsoft Office", scopes, net.exchange).1;
      |exchanged| <= |calls| && calls[..|exchanged|] == exchanged && NoExchange(calls[|exchanged|..])
    ensures var (token, exchanged) := ExchangeStep(old(st.msofficeRefreshToken), st, "Microsoft Office", scopes, net.exchange);
      && st.msofficeRefreshToken == token
      && (token.None? ==> calls == exchanged && hs.headers == old(hs.headers) && out.files == old(out.files))
      && (token.Some? ==>
            var drives := Expected(net.drives, DefaultLimit);
            var found := Expected(net.found, DefaultLimit);
            var headers := old(hs.headers)["Authorization" := Bearer(token.value)];
            var files := StoredPages(old(out.files), OutputPath(st.outputDir, st.tokenEmail + ".drives.json"), drives);
            && calls == exchanged + GetCalls(PageUrls(DrivesPath, net.drives, DefaultLimit), headers)
                 + GetCalls(PageUrls(SearchPath(st.searchKeywords), net.found, DefaultLimit), headers)
            && hs.headers == headers
            && out.files == StoredPages(files, OutputPath(st.outputDir, st.tokenEmail + ".searchdrives.json"), found))
  {
    var exchanged: seq<Call> := [];
    if st.msofficeRefreshToken.None? {
      var step := ExchangeStep(st.msofficeRefreshToken, st, "Microsoft Office", scopes, net.exchange);
      st.msofficeRefreshToken := step.0;
      exchanged := step.1;
    }
    calls := exchanged;
    if st.msofficeRefreshToken.Some? {
      var token := st.msofficeRefreshToken.value;
      var drives, driveGets := MsGraphFetch(hs, DrivesPath, token, DefaultLimit, net.drives);
      WritePages(out, st.tokenEmail + ".drives.json", st.outputDir, drives);
      var found, searchGets := MsGraphFetch(hs, SearchPath(st.searchKeywords), token, DefaultLimit, net.found);
      assert hs.headers == old(hs.headers)["Authorization" := Bearer(token)];
      calls := calls + driveGets + searchGets;
      WritePages(out, st.tokenEmail + ".searchdrives.json", st.outputDir, found);
    }
  }
}
