# SquarePhish and rephresh in Dafny

This project models the sequential logic of two cooperating tools.

**SquarePhish** runs an OAuth 2.0 device authorization grant (RFC 8628) against Microsoft's login service.
- A Flask server serves one route.
- A GET carrying a valid `email` parameter requests a device code.
- The server then starts a poller (`AuthPoll`) that polls the token endpoint until the user approves, refuses, the code expires or a request fails.
- An approved token is saved as `<email>.tokeninfo.json`.
- A request the handler can answer ends in a 302 redirect to a Microsoft page. A device-code reply it cannot read, or a template the user code cannot be formatted into, ends in a 500. Every response carries a fixed set of IIS-like headers.
- Before anything runs, `squish.py` validates the INI configuration through a parser whose `get` strips quotes.

**rephresh** takes such a token file and derives the victim's address, domain and tenant.
- It then runs the selected harvest modules in a fixed order against one shared session: emails, users, groups, organization, OneDrive, SharePoint.
- Each module exchanges the refresh token for a client token at most once per client.
- It pages through Microsoft Graph collections (OData `@odata.nextLink` continuation, OData JSON Format 4.01 section 4.5.5) or runs a Graph search.
- It writes a JSON artifact only when something was found.

## Modules

| Dafny module | file | models |
|---|---|---|
| `Strings` | strings.dfy | Python's `str.strip`, `split`, `join` and `replace`, as used by the code below |
| `ConfigParser` | cfgparser.dfy | `RawConfigParser` lookup with the DEFAULT fallback, `set`, and `CustomConfigParser.get` |
| `Squish` | squish.dfy | `parse_config`, plus the server's TLS-context and port choice |
| `Server` | server.dfy | route normalisation, the email validator, and the 404 and device-code handlers |
| `CustomFlask` | customflask.dfy | `process_response`'s in-place header overwrite |
| `Auth` | poller.dfy | `AuthPoll.run` |
| `Acquire` | acquire.dfy | `acquire_tenant_id` |
| `Graph` | graph.dfy | `ModuleState`, `fetch_refresh_token`, `msgraph_fetch`, `msgraph_search`, `write_json`, the hit-total sum |
| `Emails`, `SharePoint`, `OneDrive`, `Groups`, `Organization` | emails.dfy … organization.dfy | each module's `fetch` |
| `Rephresh` | rephresh.dfy | the driver: module filtering, token-file name → address → domain, keywords, start-up checks, the dispatch order |
| `Handoff` | handoff.dfy | the file name one tool writes and the other parses |

Everything outside the process is an oracle passed in as a parameter:
- the network: page sequences, search and exchange replies, device-code and poll replies;
- the clock: readings carried with each poll reply;
- the filesystem: a map from existing file names to their contents;
- the parsed configuration file: a section → option map.

Requests the code sends come back as values (`Call`, `FormPost`, the poller's request list), so their content and order can be stated.

Imperative code stays imperative:
- the pager loop, the poll loop, the required-option loop and the header loop are `while` loops with invariants;
- the session (`ModuleState`), the shared header dictionary (`HeaderStore`), the output directory (`OutputFiles`), the configuration parser and the Flask response are classes whose methods update their fields.

## Model

| member | source | states |
|---|---|---|
| Strings.Strip | squarephish/cfgparser.py:25 | `str.strip(chars)`: the result is no longer than the input, and neither of its ends is one of the stripped characters |
| Strings.StripOffset | squarephish/cfgparser.py:25 | the stripped string is a contiguous part of the input, and only stripped characters were cut off around it |
| Strings.JoinSplit | rephresh/rephresh.py:149-150 | joining the comma-split pieces with commas gives the original string back |
| Strings.SplitJoin | rephresh/rephresh/acquire.py:56 | splitting a join of separator-free pieces gives the pieces back |
| Strings.LastPieceOfPath | rephresh/rephresh.py:123 | `split("/")[-1]` of `dir + "/" + name` is `name` when `name` has no `/` |
| ConfigParser.Lower | squarephish/cfgparser.py:24 | `optionxform` preserves the length of the option name |
| ConfigParser.LowerIdempotent | squarephish/cfgparser.py:24 | lower-casing a name twice is the same as lower-casing it once |
| ConfigParser.RawGetLookup | squarephish/cfgparser.py:24 | a missing section other than DEFAULT is `NoSectionError` (both directions); the section's own option wins; otherwise the DEFAULT option is used, or `NoOptionError` when DEFAULT lacks it too |
| ConfigParser.StripQuotes | squarephish/cfgparser.py:25 | the value `get` returns never begins or ends with `'` |
| ConfigParser.StripQuotesInfix | squarephish/cfgparser.py:25 | `get` returns a contiguous part of the raw value, and only quote characters were cut off around it |
| ConfigParser.StripQuotesUnquoted | squarephish/cfgparser.py:25 | a value with no quote at either end is returned unchanged |
| ConfigParser.StripQuotesQuoted | squarephish/cfgparser.py:25 | a value wrapped in `"…"` or in `'…'` comes back without those quotes |
| ConfigParser.StripQuotesOrder | squarephish/cfgparser.py:25 | `'"x"'` comes back as `"x"`, and a second `get` would give `x`, so the stripping is not idempotent |
| ConfigParser.StripQuotesAllQuotes | squarephish/cfgparser.py:25 | a value made only of quote characters comes back empty when it has no `"`, and otherwise empty or bounded by `"` |
| ConfigParser.LoneDoubleQuoteSurvives | squarephish/cfgparser.py:25 | `'"'` comes back as the non-empty value `"` |
| ConfigParser.SetIn | squish.py:180 | `set` of an empty section name or DEFAULT changes only that lower-cased DEFAULT option; an existing section gets only that option of its own changed; any other section fails with `NoSectionError` (both directions) |
| ConfigParser.EmptySectionSetsDefault | squish.py:180 | `set` with an empty section name writes DEFAULT, yet `get` for the empty name is a `NoSectionError` |
| ConfigParser.CustomConfigParser.constructor | squish.py:128-132 | the parser holds the parsed contents |
| ConfigParser.CustomConfigParser.Set | squish.py:189-190 | the parser's contents become those of `SetIn`; on a missing section they are unchanged and the error is returned |
| ConfigParser.GetAfterSet | squarephish/cfgparser.py:21-25 | after `set`, `get` from the section written (DEFAULT for an empty name) returns the new value quote-stripped, and any other option reads as before |
| ConfigParser.RawGetAfterSet | squish.py:180 | after `set`, the raw lookup of that option in the section written returns the new value |
| ConfigParser.RawGetOthersAfterSet | squish.py:180 | after `set`, the raw lookup of every other option is unchanged: any other name anywhere, and the same name in another section when a real section was written |
| ConfigParser.GetIgnoresCase | squarephish/cfgparser.py:24 | looking an option up by its lower-case name gives the same result |
| ConfigParser.RawGetIgnoresCase | squarephish/cfgparser.py:24 | the raw lookup ignores the case of the option name |
| Squish.OptionFault | squish.py:150 | an option passes `if not config.get(...)` exactly when it can be read and is non-empty after quote stripping |
| Squish.FirstFault | squish.py:149-164 | no fault exactly when every required option passes; a fault is always an empty or missing option |
| Squish.FirstFaultIsFirst | squish.py:149-164 | the fault reported belongs to the first failing option in list order, and every option before it passed |
| Squish.CheckRequired | squish.py:149-164 | the loop over required options stops at the first empty or missing one and reports exactly `FirstFault` |
| Squish.LoadTemplate | squish.py:172-190 | success means EMAIL_TEMPLATE named an existing file and the value was `set` to its contents; a name that is not an existing file is fatal |
| Squish.CertificateFault | squish.py:192-202 | the certificate check fails exactly when CERT_CRT and CERT_KEY are both present and non-empty and one of them is not an existing file; a missing CERT_CRT skips it |
| Squish.Configure | squish.py:127-145 | a duplicate option is fatal; a missing EMAIL or SERVER section for its module is fatal; success implies the file was read |
| Squish.ParseConfig | squish.py:121-204 | the method fails exactly when `Configure` does and with its error; on success the parser holds `Configure`'s contents |
| Squish.ConfiguredHasRequired | squish.py:147-168 | an accepted configuration has every DEFAULT option, and every option of the module's section, present and non-empty; the section exists |
| Squish.ConfiguredIsLoaded | squish.py:170-190 | an accepted configuration is the parsed file with its template loaded |
| Squish.LoadTemplateGets | squish.py:178-190 | after loading, `get` of EMAIL_TEMPLATE where `set` wrote it returns the file's contents quote-stripped; every other option, in DEFAULT or any section, reads as before |
| Squish.TemplateReplaced | squish.py:170-190 | in an accepted configuration the module section's template option holds the named file's contents; every other option, DEFAULT's EMAIL_TEMPLATE included, reads as in the file |
| Squish.ServerCertificatesChecked | squish.py:192-202 | an accepted server configuration passed the certificate check |
| Squish.CertificatesExist | squish.py:194-200 | in an accepted server configuration, two non-empty certificate options name existing files |
| Squish.CertificatesOptional | squish.py:201-202 | without CERT_CRT, the run never fails on certificates |
| Squish.SslContextOf | squish.py:245-252 | `"adhoc"` exactly when one of the two options cannot be read; otherwise the pair of their values |
| Squish.SslContextFilesExist | squish.py:245-252 | a certificate pair chosen for an accepted configuration names existing files, unless one name is empty |
| Squish.ParseInt | squish.py:255 | `int()` of a blank string is a ValueError |
| Squish.PortOf | squish.py:254-258 | the port is `int()` of the PORT value; a value that does not parse is fatal |
| Squish.ParseIntDecimal | squish.py:255 | every decimal numeral parses to its number |
| Squish.ParseIntNegative | squish.py:255 | a minus sign before a numeral parses to the negated number |
| Squish.QuotedPortParses | squish.py:255 | a quoted port still parses, because `get` strips the quotes first |
| Server.Route | squarephish/modules/server/__init__.py:42-43 | the route starts with `/` and has no other leading or trailing `/` |
| Server.RouteIsEndpointPart | squarephish/modules/server/__init__.py:42-43 | after its `/`, the route is ENDPOINT with only `/` characters cut off around it |
| Server.RouteIgnoresSurroundingSlashes | squarephish/modules/server/__init__.py:42-43 | adding a `/` before or after ENDPOINT does not change the route |
| Server.ValidEmailFacts | squarephish/modules/server/__init__.py:61-65 | an accepted address has exactly one `@`, a word character first, an ASCII letter last, no `/`, and only printable non-space ASCII |
| Server.TestAddressIsValid | tests/test_server.py:71-83 | `test@test.com` is accepted |
| Server.PipeInTopLevelDomainIsValid | squarephish/modules/server/__init__.py:64 | the top-level-domain class admits `\|`, so `a@b.c\|d` is accepted |
| Server.RejectedAddresses | squarephish/modules/server/__init__.py:64-65 | an address with no dot after the `@`, or ending in a digit, is rejected |
| Server.Handle | squarephish/modules/server/__init__.py:45-128 | a request that is not accepted (wrong path, missing or empty `email`, invalid address) gets a 302 to the home page and sends nothing. An accepted one sends the device-code POST. It gets a 500 exactly when the handler raises: a request exception other than a connection error, a body that is not JSON, a 200 body lacking `message`, `device_code` or `user_code`, or a template that fails. Otherwise it gets a 302 to the device login page. The poll starts exactly after a 200 reply with `message` and `device_code`, with the grant type, device code and client id as form fields. The mail goes out exactly when the poll started, `user_code` is present and the template formats |
| Server.PaddedAddressAccepted | squarephish/modules/server/__init__.py:63 | whitespace around a valid address is stripped before validation, so the padded request is accepted |
| Server.RedirectTargets | tests/test_server.py:71-107 | a wrong path, or a missing or empty `email`, goes to the home page; an accepted request goes to the device login page whenever the handler does not raise: a connection error, a refusal with a JSON body, or a complete reply and a template that formats |
| Server.PollOutlivesTemplateFailure | squarephish/modules/server/__init__.py:105-122 | the poll starts before the mail is formatted, so a template failure gives a 500 with the poll running and no mail |
| Server.PollTargetIsSafeFileName | squarephish/modules/server/__init__.py:61-65 | a poll is only started for an address with no `/` and exactly one `@` |
| CustomFlask.Response.constructor | squarephish/modules/server/customflask.py:23 | a response holds its status and headers |
| CustomFlask.ProcessResponse | squarephish/modules/server/customflask.py:23-28 | the same response is returned; its headers are the old ones overwritten with each configured pair in turn; its status is unchanged |
| CustomFlask.OverwriteSets | squarephish/modules/server/customflask.py:25-26 | with distinct names, every configured header ends with its configured value |
| CustomFlask.OverwriteKeeps | squarephish/modules/server/customflask.py:25-26 | a header that is not configured keeps its presence and value |
| CustomFlask.OverwriteNames | squarephish/modules/server/customflask.py:25-26 | the overwrite adds exactly the configured names |
| CustomFlask.OpsecNamesDistinct | squarephish/utils.py:28-39 | the configured header names are distinct |
| CustomFlask.ProcessedHeaders | squarephish/modules/server/customflask.py:25-26 | after processing, every configured header has its configured value, and every other header is as before |
| CustomFlask.ProcessIdempotent | squarephish/modules/server/customflask.py:25-26 | processing twice gives the same headers as processing once |
| CustomFlask.ResponseIsMasked | tests/test_server.py:49-69 | a response whose own headers are configured ones or content-length, location and date leaves with only configured values besides those three |
| CustomFlask.RedirectIsMasked | tests/test_server.py:49-69 | Flask's redirect response, sent for every request the handler does not raise on, is masked in that sense |
| Auth.Settled | squarephish/modules/server/auth.py:55-82 | polling ends at the first reply that is not pending-before-the-deadline; every reply before it was |
| Auth.VerdictOf | squarephish/modules/server/auth.py:55-79 | a POST that raised, or a non-200 reply without `error`, is a crash; 200 means authorized; another error than `authorization_pending` means refused; a pending reply that ends polling means expired |
| Auth.AuthPoll.constructor | squarephish/modules/server/auth.py:27-45 | the poller holds its target, URL, form data, lifetime and interval |
| Auth.AuthPoll.Run | squarephish/modules/server/auth.py:48-99 | the verdict and request count are those of the first reply that ends polling. Every request re-sends the same URL and data. One sleep of `interval` follows each pending reply. With a reply to read, at least one request is sent. A POST that raises ends the thread as a crash with nothing saved. An approval is saved to `<email>.tokeninfo.json`, or logged when the write fails |
| Auth.RefusalEndsPolling | squarephish/modules/server/auth.py:72-74 | a non-200 reply with another error ends polling as refused after exactly that many requests, whatever follows |
| Auth.RaisedRequestEndsPolling | squarephish/modules/server/auth.py:55-62 | a POST that raises after k pending replies ends polling as a crash after exactly k + 1 requests, whatever follows |
| Auth.SlowDownIsRefusal | squarephish/modules/server/auth.py:72-74 | RFC 8628's `slow_down` ends polling after one request |
| Auth.ExpiryEndsPolling | squarephish/modules/server/auth.py:76-79 | a pending reply read at or after the deadline ends polling as expired |
| Auth.ApprovalIgnoresDeadline | squarephish/modules/server/auth.py:67-69 | a 200 reply is accepted whenever it arrives, even past the deadline |
| Auth.SettledIgnoresLater | squarephish/modules/server/auth.py:68-79 | once polling has ended, later replies do not move the end |
| Auth.OutcomeIgnoresLater | squarephish/modules/server/auth.py:68-79 | once polling has ended, later replies change neither the verdict nor the request count |
| Auth.TraceBeforeEnd | squarephish/modules/server/auth.py:68-82 | every reply before the terminating one was non-200 `authorization_pending`, read before the deadline |
| Acquire.DiscoveryUrl | rephresh/rephresh/acquire.py:52 | the URL is the fixed `login.windows.net` prefix, the domain, then the fixed well-known path |
| Acquire.DiscoveryUrlInjective | rephresh/rephresh/acquire.py:52 | distinct domains ask for distinct discovery documents |
| Acquire.AcquireTenantId | rephresh/rephresh/acquire.py:47-61 | the GET goes to the domain's own discovery URL, and the lookup reads the reply to it: a transport fault gives None; a missing `token_endpoint`, or one with fewer than three `/`, is an uncaught error; a tenant id never contains `/` |
| Acquire.EndpointTenant | rephresh/rephresh/acquire.py:56 | the fourth `/`-piece of the endpoint, an IndexError exactly when it has fewer than three `/` |
| Acquire.TenantIsFirstPathSegment | rephresh/rephresh/acquire.py:52-57 | when the domain's discovery document names `scheme//host/tenant/...`, the tenant id is the path segment after the host |
| Graph.KeywordsOrDefault | rephresh/rephresh/modules/module.py:50 | the keywords are the supplied list unless it is absent or empty, and then `["password", "username"]`; never empty |
| Graph.ModuleState.constructor | rephresh/rephresh/modules/module.py:45-54 | the session holds its inputs, the keywords as above, and both cached tokens start as None |
| Graph.FetchRefreshToken | rephresh/rephresh/modules/module.py:88-101 | the exchange names the client's id from the fixed table, the seed refresh token and the tenant's authority; the result is None exactly when the reply has `error`, and otherwise the reply itself |
| Graph.ExchangeStep | rephresh/rephresh/modules/emails.py:66-76 | a cached token is used without a request; otherwise one exchange is made and its result, possibly None, is what gets cached |
| Graph.ExchangeAtMostOnce | rephresh/rephresh/modules/emails.py:66-78 | after a successful exchange the next module exchanges nothing |
| Graph.ExchangesOfModule | rephresh/rephresh.py:168-186 | a module's trace adds only its exchange step's exchanges to the run's count |
| Graph.HeaderStore.constructor | rephresh/rephresh/utils.py:43-49 | the shared header map starts as the fixed browser-like header set |
| Graph.IssuedFrom | rephresh/rephresh/modules/module.py:125-130 | the requests still to be issued are bounded by `limit + 1`; every page before the last one issued continued the chain; the loop ends at the bound or at a page that does not continue |
| Graph.Issued | rephresh/rephresh/modules/module.py:125-130 | the pager issues at most `limit + 1` GETs |
| Graph.Absorbed | rephresh/rephresh/modules/module.py:139-142 | the pages whose content reaches the result all succeeded |
| Graph.AbsorbStep | rephresh/rephresh/modules/module.py:144-151 | one more page: its context is taken while the stored one is falsy, and its values are appended |
| Graph.FetchPages | rephresh/rephresh/modules/module.py:119-162 | the first URL is the Graph base plus the path, and each later URL is the previous page's nextLink. The number of GETs is `Issued`. The result is the context and values of exactly the successful pages before the stop |
| Graph.BoundIsReached | rephresh/rephresh/modules/module.py:125-130 | an endless chain of pages yields exactly `limit + 1` requests |
| Graph.DefaultLimitAllowsEleven | rephresh/rephresh/modules/module.py:107-130 | with the default limit of 10, an endless chain gives 11 requests, all absorbed |
| Graph.NaturalEnd | rephresh/rephresh/modules/module.py:128-154 | a chain of n pages ending without a nextLink within the bound takes n requests, and the result covers all n |
| Graph.StopsAtFirstFailure | rephresh/rephresh/modules/module.py:140-162 | the first error page or transport fault ends the loop; the result is exactly the pages before it |
| Graph.GatherAppend | rephresh/rephresh/modules/module.py:149-151 | the values of two runs of pages are the concatenation of each run's values, in order |
| Graph.EmptyPageContributesNothing | rephresh/rephresh/modules/module.py:149-151 | a page whose `value` is missing or empty contributes nothing |
| Graph.ContextIsFirstTruthy | rephresh/rephresh/modules/module.py:145-146 | the result's context is the first truthy context among the pages, and is never overwritten |
| Graph.ContextNoneTruthy | rephresh/rephresh/modules/module.py:145-146 | without a truthy context among the pages, the result's context is not truthy |
| Graph.FirstPageContext | rephresh/rephresh/modules/module.py:145-146 | a truthy first page fixes the context of the whole result |
| Graph.MsGraphFetch | rephresh/rephresh/modules/module.py:115-162 | the shared headers get the bearer token and nothing else; every GET carries them; the result is `Expected` |
| Graph.SearchOutcome | rephresh/rephresh/modules/module.py:191-208 | None exactly on a transport fault or an `error` body; otherwise the reply unchanged |
| Graph.MsGraphSearch | rephresh/rephresh/modules/module.py:176-208 | one POST with body `{requests: [{entityTypes, query: {queryString}}]}`; the shared headers keep the bearer token and the JSON content type |
| Graph.HitTotalAppend | rephresh/rephresh/modules/emails.py:109-111 | the hit total of two runs of blocks is the sum of their totals |
| Graph.HitTotalPositive | rephresh/rephresh/modules/emails.py:109-115 | with non-negative totals, the sum is positive exactly when some container has hits |
| Graph.HitTotalIsFlatSum | rephresh/rephresh/modules/emails.py:109-111 | the nested count equals the plain sum over every block's containers taken in order, as the generator expression computes it |
| Graph.ContainerTotalAppend | rephresh/rephresh/modules/emails.py:109-111 | the total of two runs of containers is the sum of their totals |
| Graph.OutputFiles.constructor | rephresh/rephresh.py:153-155 | the output directory starts empty |
| Graph.WriteJson | rephresh/rephresh/modules/module.py:60-70 | the data is stored under `output_dir/filename`, replacing what was there |
| Graph.WritePages | rephresh/rephresh/modules/emails.py:83-96 | a collection is stored exactly when its `value` is non-empty |
| Graph.WriteHits | rephresh/rephresh/modules/emails.py:109-124 | a search reply is stored exactly when its hit total is positive |
| Emails.MessageSearch | rephresh/rephresh/modules/emails.py:36-42 | the entity types are exactly `["message"]`; a single keyword is the query itself |
| Emails.Fetch | rephresh/rephresh/modules/emails.py:56-124 | the Office token is exchanged only when absent, and the result is stored back; the SharePoint cache is untouched. With no token nothing else happens. Otherwise the messages are paged and stored iff non-empty. The search then always runs and is stored iff its hit total is positive. A failed search crashes after the message file is written |
| SharePoint.Fetch | rephresh/rephresh/modules/sharepoint.py:45-98 | uses and fills only the SharePoint cache; with a token it sends one search over drive items, list items and lists, stores it iff its hit total is positive, and crashes on a failed search |
| OneDrive.Fetch | rephresh/rephresh/modules/onedrive.py:58-124 | the Office cache rule; with a token, the drives are paged and stored iff non-empty; then the name search, which runs regardless, is paged on `me/drive/search(q='…')` and stored iff non-empty |
| Groups.Fetch | rephresh/rephresh/modules/groups.py:36-77 | the Office cache rule; with a token, `groups?$top=999` is paged and stored iff non-empty |
| Organization.Fetch | rephresh/rephresh/modules/organization.py:36-77 | the Office cache rule; with a token, `organization` is paged and stored iff non-empty |
| Rephresh.FilterModules | rephresh/rephresh.py:114 | a name is kept exactly when it is given and is a known module; the list never grows |
| Rephresh.FilterModulesAppend | rephresh/rephresh.py:114 | filtering keeps the given order: filtering a concatenation filters each part |
| Rephresh.FilterModulesKeepsKnown | rephresh/rephresh.py:114 | known names pass through unchanged, duplicates included |
| Rephresh.PlanOf | rephresh/rephresh.py:168-186 | the steps taken are exactly the selected ones, in increasing order of the fixed sequence |
| Rephresh.Plan | rephresh/rephresh.py:168-186 | the steps run in the order emails, users, groups, organization, OneDrive, SharePoint, each at most once, and exactly when named or `all` is |
| Rephresh.PlanOfSameNames | rephresh/rephresh.py:168-186 | the steps depend only on which names are given |
| Rephresh.PlanOfSameSelection | rephresh/rephresh.py:168-186 | order and duplicates on the command line do not change the plan |
| Rephresh.PlanOfAll | rephresh/rephresh.py:168-186 | with `all`, every step is taken |
| Rephresh.PlanAll | rephresh/rephresh.py:168-186 | `all` runs every module in the fixed order |
| Rephresh.TokenEmail | rephresh/rephresh.py:123-127 | the derived address contains no `/` |
| Rephresh.DropSavedSuffix | rephresh/rephresh.py:127 | removing the suffix from `address + suffix` gives the address when it has no inner suffix |
| Rephresh.TokenEmailOfSavedFile | rephresh/rephresh.py:123-127 | `dir/<address>.tokeninfo.json` yields the address when it has no `/` and no inner suffix |
| Rephresh.TokenEmailDropsInnerSuffix | rephresh/rephresh.py:127 | an inner occurrence of the suffix is removed as well (`replace` is not `removesuffix`) |
| Rephresh.TokenEmailOfName | rephresh/rephresh.py:123-127 | for a bare file name, the address is the name with every occurrence of the suffix removed |
| Rephresh.DomainFrom | rephresh/rephresh.py:128-135 | no domain (fatal) exactly when the address has no `@`; a domain never contains `@` |
| Rephresh.DomainOfAddress | rephresh/rephresh.py:130 | `local@domain` gives `domain` |
| Rephresh.KeywordsArg | rephresh/rephresh.py:149-150 | the keyword list is never empty; without `-s` it is the default; with `-s` the pieces joined by `,` give the argument back |
| Rephresh.Prepare | rephresh/rephresh.py:93-155 | the token-file error (no file, bad JSON, no `refresh_token`) happens exactly when the file is unusable. The no-modules error happens exactly when the file is usable and no name survives filtering. Start-up succeeds exactly when, in addition, a domain is found and the tenant lookup gives a non-empty id. The tenant lookup is asked of the resolved domain's own discovery URL; a crashing lookup and a missing domain are each fatal (both directions). The setup then holds the token, the modules, the address, the domain, the tenant that domain's lookup returned, the keywords, and an output directory named after the address |
| Rephresh.PlanUnfolds | rephresh/rephresh.py:168-186 | the plan is the six steps in the fixed order, each kept exactly when it is selected |
| Rephresh.Run | rephresh/rephresh.py:158-186 | the run goes through `Plan` until a step crashes. Without a crash the steps that ran are exactly `Plan` and none crashed. After a crash they are a prefix of `Plan` whose last step, emails or SharePoint with a token and a failed search, is the first to crash. Whatever the exchanges reply, the files, the exchange count per client and the crash are those of `RunSession` over the steps that ran: a refused exchange skips only its own module, and the next module of that client exchanges again. Every file written is an artifact of a step that ran. No SharePoint exchange happens unless SharePoint runs. When every exchange succeeds, the files are exactly what those steps store, each client is exchanged for at most once, and the run crashes exactly when a selected emails or SharePoint search fails |
| Rephresh.SessionFilesWhenExchangesSucceed | rephresh/rephresh/modules/groups.py:47-60 | when no exchange is refused, every step has its token, so the session's files are what each step stores |
| Rephresh.StepFilesWhenExchangesSucceed | rephresh/rephresh/modules/groups.py:47-60 | when the step's exchange is not refused, the step stores its files |
| Rephresh.ExchangedOnceWhenExchangesSucceed | rephresh/rephresh/modules/groups.py:47-57 | when no exchange is refused, each client is exchanged for once if its token is cached and never otherwise |
| Rephresh.NoSharePointExchangeWithoutStep | rephresh/rephresh/modules/sharepoint.py:59-71 | only the SharePoint step exchanges for, or caches, the SharePoint client |
| Rephresh.CrashesWhenExchangesSucceed | rephresh/rephresh/modules/emails.py:78-111 | when no exchange is refused, a step crashes exactly when it is the emails or SharePoint step and its search failed |
| Rephresh.CrashWhenExchangesSucceed | rephresh/rephresh.py:168-186 | for a run as `Run` describes it, with no exchange refused, the run crashes exactly when a selected emails or SharePoint search fails |
| Handoff.SavedTokenNamesItsAddress | rephresh/rephresh.py:123-127 | for an address the server accepted, rephresh reads the poller's `<address>.tokeninfo.json` back as that address, as long as the address does not itself contain `.tokeninfo.json` |
| Handoff.SuffixInsideAddressIsLost | squarephish/modules/server/auth.py:90 | the validator accepts `x.tokeninfo.json@ab.cd`, and rephresh reads that token file as belonging to `x@ab.cd` |

## Left out

- The network, msal's `acquire_token_by_refresh_token`, Flask's routing and `app.run`, SMTP and the notification mail, and QR rendering are not modelled. Their replies are parameters.
- Threads: one poller is modelled sequentially. `time.sleep` is recorded as a list of sleep lengths. `datetime.now` is a clock reading carried with each reply.
- Argument parsing (`parse_args`, argparse), logging, banners and colour output are not modelled.
- `users.py` is not part of this model. Its step is recorded in the run's trace of steps, but its exchange, requests, file and any crash of its own are not modelled.
- INI syntax (comments, continuation lines, interpolation) is not modelled. The parsed file is given as a section → option map, and a duplicate option is a read outcome.
- Auth.AuthPoll.Run: the deadline is whole microseconds from the start. Python's float division `expires_in / 60` and `timedelta` rounding are not modelled.
- Auth.VerdictOf: a non-200 reply without an `error` key is a separate `Crashed` outcome (the KeyError). Its other malformed-JSON paths are not modelled.
- Rephresh.Run and the harvest modules: a missing `value` or `hitsContainers` key in a search reply is not modelled. Only the None search result (a TypeError) is, as a crash.
- Graph.WriteJson: a failing write prints the data instead of storing it. The model always stores it.
- The form bodies are not URL-encoded. They are kept as ordered pairs.
- CustomFlask.ProcessResponse: the order and letter case of response headers are not modelled. Headers are a map keyed by lower-case name.
- The value range of the port, and the file contents' encoding, are not checked.
- Squish.ParseInt: accepts ASCII digits only. Python's `int()` also accepts other Unicode digits and `_` separators.
- ConfigParser.Lower: lowers ASCII letters only. Python's `str.lower` also lowers other scripts.
- Strings.Strip: the whitespace set is the ASCII and Unicode whitespace Python's `str.strip()` removes, written out as a fixed set of characters.
- ConfigParser.StripQuotesAllQuotes: a value made only of quotes does not always come back empty. For example `'"'` becomes `"`, which passes the required-option check.
- Rephresh.TokenEmail: inverts the poller's file name only for addresses that do not themselves contain `.tokeninfo.json`. `Handoff.SuffixInsideAddressIsLost` shows an accepted address for which it fails.
- Rephresh.Run: the run's call trace is tied to the per-step `Fetch` contracts only through the exchange counts per client. Each module's GET and POST sequence is stated by its own `Fetch`, not restated for the whole run.
- Server.Handle: whether `email_template % user_code` succeeds is an input (`formats`), not computed from the template's conversion specifiers. A reply body that is JSON but not an object is treated like one that lacks the keys. A missing `expires_in` or `interval` fails in the poller thread, and that is not modelled.
- Graph.FetchRefreshToken: an error reply without `error_description` raises a KeyError while logging, and that is not modelled. An error-free but empty token reply is cached, yet Python treats it as falsy; the model treats every returned reply as a token.
- Graph.FetchPages: an error body whose `error` is not an object with `message` raises inside the log call, and that is not modelled. Neither is a token reply without `access_token`, which raises a KeyError when the bearer header is built.
- Graph.MsGraphSearch: as for `FetchPages`, a malformed `error` body and a token without `access_token` raise, and neither is modelled.
