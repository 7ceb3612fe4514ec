/** The group harvest: page through the groups visible to the user, 999 per page. */
module Groups {
  import opened Strings
  import opened Graph

  const GroupsPath := "groups?$top=999"

  /** The network's answers during one run: the token exchange and the group pages. */
  datatype Replies = Replies(exchange: TokenReply, groups: seq<Page>)

  /**
   * `Groups.fetch`: make sure a "Microsoft Office" token is cached; without
   * one nothing else happens. With one, fetch every group page and store the
   * collection when it is non-empty.
   */
  method Fetch(st: ModuleState, hs: HeaderStore, out: OutputFiles, scopes: seq<string>, net: Replies)
      returns (calls: seq<Call>)
    modifies st, hs, out
    ensures st.sharepointRefreshToken == old(st.sharepointRefreshToken)
    ensures var exchanged := ExchangeStep(old(st.msofficeRefreshToken), st, "Microsoft Office", scopes, net.exchange).1;
      |exchanged| <= |calls| && calls[..|exchanged|] == exchanged && NoExchange(calls[|exchanged|..])
    ensures var (token, exchanged) := ExchangeStep(old(st.msofficeRefreshToken), st, "Microsoft Office", scopes, net.exchange);
      && st.msofficeRefreshToken == token
      && (token.None? ==> calls == exchanged && hs.headers == old(hs.headers) && out.files == old(out.files))
      && (token.Some? ==>
            var groups := Expected(net.groups, DefaultLimit);
            var headers := old(hs.headers)["Authorization" := Bearer(token.value)];
            && calls == exchanged + GetCalls(PageUrls(GroupsPath, net.groups, DefaultLimit), headers)
            && hs.headers == headers
            && out.files == StoredPages(old(out.files), OutputPath(st.outputDir, st.tokenEmail + ".groups.json"), groups))
  {
    var exchanged: seq<Call> := [];
    if st.msofficeRefreshToken.None? {
      var step := ExchangeStep(st.msofficeRefreshToken, st, "Microsoft Office", scopes, net.exchange);
      st.msofficeRefreshToken := step.0;
      exchanged := step.1;
    }
    calls := exchanged;
    if st.msofficeRefreshToken.Some? {
      var groups, gets := MsGraphFetch(hs, GroupsPath, st.msofficeRefreshToken.value, DefaultLimit, net.groups);
      calls := calls + gets;
      WritePages(out, st.tokenEmail + ".groups.json", st.outputDir, groups);
    }
  }
}
