/**
 * The Flask subclass that dresses every response up as one from a
 * Microsoft IIS server: before Flask finishes a response, each configured
 * header is set on it, replacing whatever value the response had.
 *
 * Header names are case-insensitive in the response; the model keys them by
 * their lower-case name, the form every configured name already has.
 */
module CustomFlask {

  /** The configured headers, in the order they are set. */
  const OpsecHeaders: seq<(string, string)> := [
    ("vary", "Accept-Encoding"),
    ("server", "Microsoft-IIS/10.0"),
    ("tls_version", "tls1.3"),
    ("content-type", "text/html; charset=utf-8"),
    ("x-appversion", "1.0.8125.42964"),
    ("x-frame-options", "SAMEORIGIN"),
    ("x-ua-compatible", "IE=Edge;chrome=1"),
    ("x-xss-protection", "1; mode=block"),
    ("x-content-type-options", "nosniff"),
    ("strict-transport-security", "max-age=31536000")
  ]

  /** Headers a response may carry besides the configured ones: Flask's length and redirect target, the server's date. */
  const Unmasked: set<string> := {"content-length", "location", "date"}

  function Names(pairs: seq<(string, string)>): set<string>
  {
    set i | 0 <= i < |pairs| :: pairs[i].0
  }

  predicate DistinctNames(pairs: seq<(string, string)>)
  {
    forall i, j :: 0 <= i < j < |pairs| ==> pairs[i].0 != pairs[j].0
  }

  /** `headers` after `headers[name] = value` for each pair in turn. */
  function Overwrite(headers: map<string, string>, pairs: seq<(string, string)>): map<string, string>
  {
    if pairs == [] then headers
    else
      var last := pairs[|pairs| - 1];
      Overwrite(headers, pairs[..|pairs| - 1])[last.0 := last.1]
  }

  /** Every header is either one Flask or the server adds, or carries its configured value. */
  predicate Masked(headers: map<string, string>)
  {
    forall name :: name in headers ==> name in Unmasked || (name, headers[name]) in OpsecHeaders
  }

  class Response {
    var status: int
    var headers: map<string, string>

    constructor (status: int, headers: map<string, string>)
      ensures this.status == status && this.headers == headers
    {
      this.status := status;
      this.headers := headers;
    }
  }

  /** `CustomFlask.process_response`: set every configured header, then hand the same response back. */
  method ProcessResponse(response: Response) returns (r: Response)
    modifies response
    ensures r == response
    ensures response.headers == Overwrite(old(response.headers), OpsecHeaders)
    ensures response.status == old(response.status)
  {
    var i := 0;
    while i < |OpsecHeaders|
      invariant i <= |OpsecHeaders|
      invariant response.headers == Overwrite(old(response.headers), OpsecHeaders[..i])
      invariant response.status == old(response.status)
    {
      var (name, value) := OpsecHeaders[i];
      assert OpsecHeaders[..i + 1][..i] == OpsecHeaders[..i];
      response.headers := response.headers[name := value];
      i := i + 1;
    }
    assert OpsecHeaders[..i] == OpsecHeaders;
    r := response;
  }

  /** With distinct names, each configured header ends with its configured value. */
  lemma {:induction false} OverwriteSets(headers: map<string, string>, pairs: seq<(string, string)>, i: nat)
    requires DistinctNames(pairs) && i < |pairs|
    ensures pairs[i].0 in Overwrite(headers, pairs)
    ensures Overwrite(headers, pairs)[pairs[i].0] == pairs[i].1
  {
    var n := |pairs| - 1;
    if i < n {
      OverwriteSets(headers, pairs[..n], i);
    }
  }

  /** A header that is not configured keeps its presence and value. */
  lemma {:induction false} OverwriteKeeps(headers: map<string, string>, pairs: seq<(string, string)>, name: string)
    requires name !in Names(pairs)
    ensures name in Overwrite(headers, pairs) <==> name in headers
    ensures name in headers ==> Overwrite(headers, pairs)[name] == headers[name]
  {
    if pairs != [] {
      var n := |pairs| - 1;
      assert Names(pairs[..n]) <= Names(pairs) by {
        forall x | x in Names(pairs[..n]) ensures x in Names(pairs) {
          var j :| 0 <= j < n && pairs[..n][j].0 == x;
          assert pairs[j].0 == x;
        }
      }
      assert pairs[n].0 in Names(pairs);
      OverwriteKeeps(headers, pairs[..n], name);
    }
  }

  /** Only configured names are added. */
  lemma {:induction false} OverwriteNames(headers: map<string, string>, pairs: seq<(string, string)>)
    ensures Overwrite(headers, pairs).Keys == headers.Keys + Names(pairs)
  {
    if pairs != [] {
      var n := |pairs| - 1;
      OverwriteNames(headers, pairs[..n]);
      assert Names(pairs) == Names(pairs[..n]) + {pairs[n].0} by {
        forall x | x in Names(pairs) ensures x in Names(pairs[..n]) + {pairs[n].0} {
          var j :| 0 <= j < |pairs| && pairs[j].0 == x;
          if j < n {
            assert pairs[..n][j].0 == x;
          }
        }
        forall x | x in Names(pairs[..n]) ensures x in Names(pairs) {
          var j :| 0 <= j < n && pairs[..n][j].0 == x;
          assert pairs[j].0 == x;
        }
      }
    }
  }

  lemma OpsecNamesDistinct()
    ensures DistinctNames(OpsecHeaders)
  {
  }

  /**
   * After processing, every configured header has its configured value,
   * and a header that is not configured is unchanged.
   */
  lemma ProcessedHeaders(headers: map<string, string>, name: string)
    ensures forall i :: 0 <= i < |OpsecHeaders| ==>
      OpsecHeaders[i].0 in Overwrite(headers, OpsecHeaders) && Overwrite(headers, OpsecHeaders)[OpsecHeaders[i].0] == OpsecHeaders[i].1
    ensures name !in Names(OpsecHeaders) ==>
      (name in Overwrite(headers, OpsecHeaders) <==> name in headers) &&
      (name in headers ==> Overwrite(headers, OpsecHeaders)[name] == headers[name])
  {
    OpsecNamesDistinct();
    forall i | 0 <= i < |OpsecHeaders|
      ensures OpsecHeaders[i].0 in Overwrite(headers, OpsecHeaders)
      ensures Overwrite(headers, OpsecHeaders)[OpsecHeaders[i].0] == OpsecHeaders[i].1
    {
      OverwriteSets(headers, OpsecHeaders, i);
    }
    if name !in Names(OpsecHeaders) {
      OverwriteKeeps(headers, OpsecHeaders, name);
    }
  }

  /** Processing a response twice gives the same headers as processing it once. */
  lemma ProcessIdempotent(headers: map<string, string>)
    ensures Overwrite(Overwrite(headers, OpsecHeaders), OpsecHeaders) == Overwrite(headers, OpsecHeaders)
  {
    var once := Overwrite(headers, OpsecHeaders);
    var twice := Overwrite(once, OpsecHeaders);
    OverwriteNames(headers, OpsecHeaders);
    OverwriteNames(once, OpsecHeaders);
    OpsecNamesDistinct();
    forall name | name in once
      ensures twice[name] == once[name]
    {
      if name in Names(OpsecHeaders) {
        var i :| 0 <= i < |OpsecHeaders| && OpsecHeaders[i].0 == name;
        OverwriteSets(headers, OpsecHeaders, i);
        OverwriteSets(once, OpsecHeaders, i);
      } else {
        OverwriteKeeps(once, OpsecHeaders, name);
      }
    }
  }

  /**
   * A response whose own headers are only configured ones or Flask's
   * length, redirect target and date (as a redirect's are) leaves with
   * nothing but configured values and those three.
   */
  lemma ResponseIsMasked(headers: map<string, string>)
    requires forall name :: name in headers ==> name in Unmasked || name in Names(OpsecHeaders)
    ensures Masked(Overwrite(headers, OpsecHeaders))
  {
    var h := Overwrite(headers, OpsecHeaders);
    OverwriteNames(headers, OpsecHeaders);
    OpsecNamesDistinct();
    forall name | name in h && name !in Unmasked
      ensures (name, h[name]) in OpsecHeaders
    {
      var i :| 0 <= i < |OpsecHeaders| && OpsecHeaders[i].0 == name;
      OverwriteSets(headers, OpsecHeaders, i);
      assert OpsecHeaders[i] == (name, h[name]);
    }
  }

  /** Flask's redirect: the reply to every request the handler does not raise on; `ResponseIsMasked` covers the 500. */
  lemma RedirectIsMasked(location: string, length: string)
    ensures Masked(Overwrite(map["content-type" := "text/html; charset=utf-8", "content-length" := length, "location" := location], OpsecHeaders))
  {
    assert OpsecHeaders[3].0 == "content-type";
    ResponseIsMasked(map["content-type" := "text/html; charset=utf-8", "content-length" := length, "location" := location]);
  }
}
