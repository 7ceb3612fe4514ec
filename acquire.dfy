/**
 * Tenant discovery and the token exchange endpoint: the tenant id of a
 * domain is read from the `token_endpoint` of the domain's OpenID Connect
 * discovery document (OpenID Connect Discovery 1.0, section 4).
 */
module Acquire {
  import opened Strings

  const DiscoveryHost := "https://login.windows.net/"
  const DiscoveryPath := "/.well-known/openid-configuration"

  /**
   * The discovery document's URL for a domain: the domain sits between a
   * fixed host prefix and the fixed well-known path, so it can be read back.
   */
  function DiscoveryUrl(domain: string): (url: string)
    ensures |url| == |DiscoveryHost| + |domain| + |DiscoveryPath|
    ensures url[..|DiscoveryHost|] == DiscoveryHost
    ensures url[|DiscoveryHost|..|DiscoveryHost| + |domain|] == domain
    ensures url[|DiscoveryHost| + |domain|..] == DiscoveryPath
  {
    DiscoveryHost + domain + DiscoveryPath
  }

  /** Distinct domains ask for distinct documents. */
  lemma DiscoveryUrlInjective(a: string, b: string)
    requires DiscoveryUrl(a) == DiscoveryUrl(b)
    ensures a == b
  {
    var n := |DiscoveryHost|;
    assert |a| == |b|;
    assert a == DiscoveryUrl(a)[n..n + |a|];
  }

  /** The reply to the discovery GET: a transport fault, or a document that may lack `token_endpoint`. */
  datatype DiscoveryReply = DiscoveryFault | Discovery(tokenEndpoint: Option<string>)

  /**
   * The outcome of `acquire_tenant_id`: the fourth `/`-separated piece of
   * the endpoint, None after a transport fault, or an uncaught KeyError or
   * IndexError when the key is missing or the endpoint has fewer than three
   * slashes.
   */
  datatype TenantLookup = Tenant(id: string) | NoTenant | LookupCrash

  /** The GET `acquire_tenant_id` sends, and what it makes of the answer. */
  datatype Acquired = Acquired(url: string, lookup: TenantLookup)

  /**
   * `acquire_tenant_id(domain)`: the discovery server, given as the reply
   * it gives to each URL, is asked for the domain's own document, and the
   * lookup reads that reply.
   */
  function AcquireTenantId(domain: string, server: string -> DiscoveryReply): (r: Acquired)
    ensures r.url == DiscoveryUrl(domain)
    ensures r.lookup.NoTenant? <==> server(r.url).DiscoveryFault?
    ensures r.lookup.LookupCrash? <==>
      server(r.url).Discovery? && (server(r.url).tokenEndpoint.None? || CountChar(server(r.url).tokenEndpoint.value, '/') < 3)
    ensures r.lookup.Tenant? ==> '/' !in r.lookup.id
  {
    var url := DiscoveryUrl(domain);
    match server(url)
    case DiscoveryFault => Acquired(url, NoTenant)
    case Discovery(None) => Acquired(url, LookupCrash)
    case Discovery(Some(endpoint)) => Acquired(url, EndpointTenant(endpoint))
  }

  /** `token_endpoint.split("/")[3]`: an IndexError when the endpoint has fewer than three slashes. */
  function EndpointTenant(endpoint: string): (r: TenantLookup)
    ensures r.LookupCrash? <==> CountChar(endpoint, '/') < 3
    ensures !r.NoTenant?
    ensures r.Tenant? ==> '/' !in r.id
  {
    var parts := Split(endpoint, '/');
    SplitLength(endpoint, '/');
    if |parts| > 3 then Tenant(parts[3]) else LookupCrash
  }

  /**
   * For an endpoint `scheme//host/tenant/...` written as its slash-free
   * pieces, the lookup yields exactly the path segment after the host.
   */
  lemma TenantIsFirstPathSegment(domain: string, server: string -> DiscoveryReply, pieces: seq<string>)
    requires |pieces| > 3
    requires forall i :: 0 <= i < |pieces| ==> '/' !in pieces[i]
    requires server(DiscoveryUrl(domain)) == Discovery(Some(Join(pieces, "/")))
    ensures AcquireTenantId(domain, server).lookup == Tenant(pieces[3])
  {
    EndpointOfPieces(pieces);
  }

  lemma EndpointOfPieces(pieces: seq<string>)
    requires |pieces| > 3
    requires forall i :: 0 <= i < |pieces| ==> '/' !in pieces[i]
    ensures EndpointTenant(Join(pieces, "/")) == Tenant(pieces[3])
  {
    SplitJoin(pieces, '/');
  }
}
