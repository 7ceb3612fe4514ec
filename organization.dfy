/** The organization harvest: fetch the organization record of the user's tenant. */
module Organization {
  import opened Strings
  import opened Graph

  const OrganizationPath := "organization"

  /** The network's answers during one run: the token exchange and the organization pages. */
  datatype Replies = Replies(exchange: TokenReply, orgs: seq<Page>)

  /**
   * `Organization.fetch`: make sure a "Microsoft Office" token is cached; without
   * one nothing else happens. With one, fetch every organization page and store the
   * collection when it is non-empty.
   */
  method Fetch(st: ModuleState, hs: HeaderStore, out: OutputFiles, scopes: seq<string>, net: Replies)
      returns (calls: seq<Call>)
    modifies st, hs, out
    ensures st.sharepointRefreshToken == old(st.sharepointRefreshToken)
    ensures var exchanged := ExchangeStep(old(st.msofficeRefreshToken), st, "Microsoft Office", scopes, net.exchange).1;
      |exchanged| <= |calls| && calls[..|exchanged|] == exchanged && NoExchange(calls[|exchanged|..])
    ensures var (token, exchanged) := ExchangeStep(old(st.msofficeRefreshToken), st, "Microsoft Office", scopes, net.exchange);
      && st.msofficeRefreshToken == token
      && (token.None? ==> calls == exchanged && hs.headers == old(hs.headers) && out.files == old(out.files))
      && (token.Some? ==>
            var orgs := Expected(net.orgs, DefaultLimit);
            var headers := old(hs.headers)["Authorization" := Bearer(token.value)];
            && calls == exchanged + GetCalls(PageUrls(OrganizationPath, net.orgs, DefaultLimit), headers)
            && hs.headers == headers
            && out.files == StoredPages(old(out.files), OutputPath(st.outputDir, st.tokenEmail + ".organizations.json"), orgs))
  {
    var exchanged: seq<Call> := [];
    if st.msofficeRefreshToken.None? {
      var step := ExchangeStep(st.msofficeRefreshToken, st, "Microsoft Office", scopes, net.exchange);
      st.msofficeRefreshToken := step.0;
      exchanged := step.1;
    }
    calls := exchanged;
    if st.msofficeRefreshToken.Some? {
      var orgs, gets := MsGraphFetch(hs, OrganizationPath, st.msofficeRefreshToken.value, DefaultLimit, net.orgs);
      calls := calls + gets;
      WritePages(out, st.tokenEmail + ".organizations.json", st.outputDir, orgs);
    }
  }
}
