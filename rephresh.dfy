/**
 * The rephresh driver: validate the token file and the arguments, derive
 * the token's e-mail address, domain and tenant, then run the selected
 * harvest modules in a fixed order against one shared session.
 */
module Rephresh {
  import opened Strings
  import opened Graph
  import Acquire
  import Emails
  import SharePoint
  import OneDrive
  import Groups
  import Organization

  const DataModules: seq<string> := ["all", "users", "groups", "emails", "onedrive", "sharepoint", "organization"]

  /** The suffix the phishing server gives every saved token file. */
  const TokenSuffix := ".tokeninfo.json"

  // ---------------------------------------------------------------------
  // Module selection

  /** Keep the names of known modules, in the order given, duplicates included. */
  function FilterModules(requested: seq<string>): (r: seq<string>)
    ensures |r| <= |requested|
    ensures forall m :: m in r <==> m in requested && m in DataModules
  {
    if requested == [] then []
    else
      var rest := FilterModules(requested[1..]);
      assert requested == [requested[0]] + requested[1..];
      if requested[0] in DataModules then [requested[0]] + rest else rest
  }

  /** Filtering a concatenation filters each part. */
  lemma {:induction false} FilterModulesAppend(a: seq<string>, b: seq<string>)
    ensures FilterModules(a + b) == FilterModules(a) + FilterModules(b)
  {
    if a == [] {
      assert a + b == b;
    } else {
      assert (a + b)[1..] == a[1..] + b;
      FilterModulesAppend(a[1..], b);
    }
  }

  /** A selection of known modules only passes through unchanged. */
  lemma {:induction false} FilterModulesKeepsKnown(requested: seq<string>)
    requires forall i :: 0 <= i < |requested| ==> requested[i] in DataModules
    ensures FilterModules(requested) == requested
  {
    if requested != [] {
      FilterModulesKeepsKnown(requested[1..]);
    }
  }

  /** The `-m` argument: comma-separated names, unknown ones dropped. */
  function SelectModules(arg: string): seq<string>
  {
    FilterModules(Split(arg, ','))
  }

  /** The harvest steps, in the order the driver runs them. */
  datatype Step = EmailsStep | UsersStep | GroupsStep | OrganizationStep | OneDriveStep | SharePointStep

  const Order: seq<Step> := [EmailsStep, UsersStep, GroupsStep, OrganizationStep, OneDriveStep, SharePointStep]

  function StepName(step: Step): string
  {
    match step
    case EmailsStep => "emails"
    case UsersStep => "users"
    case GroupsStep => "groups"
    case OrganizationStep => "organization"
    case OneDriveStep => "onedrive"
    case SharePointStep => "sharepoint"
  }

  /** Position of a step in the fixed order. */
  function Rank(step: Step): nat
  {
    match step
    case EmailsStep => 0
    case UsersStep => 1
    case GroupsStep => 2
    case OrganizationStep => 3
    case OneDriveStep => 4
    case SharePointStep => 5
  }

  /** A step runs when it is named or when "all" is. */
  predicate Selected(modules: seq<string>, step: Step)
  {
    StepName(step) in modules || "all" in modules
  }

  predicate Increasing(steps: seq<Step>)
  {
    forall i, j :: 0 <= i < j < |steps| ==> Rank(steps[i]) < Rank(steps[j])
  }

  function PlanOf(modules: seq<string>, steps: seq<Step>): (r: seq<Step>)
    requires Increasing(steps)
    ensures Increasing(r)
    ensures forall s :: s in r <==> s in steps && Selected(modules, s)
  {
    if steps == [] then []
    else
      IncreasingSplit(steps);
      var rest := PlanOf(modules, steps[1..]);
      assert steps == [steps[0]] + steps[1..];
      if Selected(modules, steps[0]) then IncreasingCons(steps[0], rest); [steps[0]] + rest else rest
  }

  /** The tail of an increasing sequence is increasing and ranks above its head. */
  lemma IncreasingSplit(steps: seq<Step>)
    requires Increasing(steps) && steps != []
    ensures Increasing(steps[1..])
    ensures forall s :: s in steps[1..] ==> Rank(steps[0]) < Rank(s)
  {
    var tail := steps[1..];
    forall i, j | 0 <= i < j < |tail|
      ensures Rank(tail[i]) < Rank(tail[j])
    {
      assert tail[i] == steps[i + 1] && tail[j] == steps[j + 1];
    }
    forall s | s in tail
      ensures Rank(steps[0]) < Rank(s)
    {
      var j :| 0 <= j < |tail| && tail[j] == s;
      assert steps[j + 1] == s;
    }
  }

  lemma IncreasingCons(x: Step, rest: seq<Step>)
    requires Increasing(rest)
    requires forall s :: s in rest ==> Rank(x) < Rank(s)
    ensures Increasing([x] + rest)
  {
    var r := [x] + rest;
    forall i, j | 0 <= i < j < |r|
      ensures Rank(r[i]) < Rank(r[j])
    {
      assert r[j] == rest[j - 1];
      if i > 0 {
        assert r[i] == rest[i - 1];
      }
    }
  }

  /**
   * The steps the driver runs for a selection: exactly the selected ones,
   * each once, in the fixed order emails, users, groups, organization,
   * OneDrive, SharePoint.
   */
  function Plan(modules: seq<string>): (r: seq<Step>)
    ensures Increasing(r)
    ensures forall s :: s in r <==> Selected(modules, s)
  {
    PlanOf(modules, Order)
  }

  /** The plan depends on which names were given, not on their order or repetition. */
  lemma {:induction false} PlanOfSameNames(a: seq<string>, b: seq<string>, steps: seq<Step>)
    requires Increasing(steps)
    requires forall m :: m in a <==> m in b
    ensures PlanOf(a, steps) == PlanOf(b, steps)
  {
    if steps != [] {
      PlanOfSameNames(a, b, steps[1..]);
    }
  }

  lemma PlanOfSameSelection(a: seq<string>, b: seq<string>)
    requires forall m :: m in a <==> m in b
    ensures Plan(a) == Plan(b)
  {
    PlanOfSameNames(a, b, Order);
  }

  /** "all" runs every step, whatever else is listed. */
  lemma {:induction false} PlanOfAll(modules: seq<string>, steps: seq<Step>)
    requires Increasing(steps) && "all" in modules
    ensures PlanOf(modules, steps) == steps
  {
    if steps != [] {
      PlanOfAll(modules, steps[1..]);
    }
  }

  lemma PlanAll(modules: seq<string>)
    requires "all" in modules
    ensures Plan(modules) == Order
  {
    PlanOfAll(modules, Order);
  }

  // ---------------------------------------------------------------------
  // The token file name, the domain and the keywords

  /** The address a token file belongs to: its last path piece with the suffix removed. */
  function TokenEmail(tokenfile: string): (r: string)
    ensures '/' !in r
  {
    var name := LastPiece(tokenfile, '/');
    var r := ReplaceAll(name, TokenSuffix, "");
    ReplaceAllKeepsAbsent(name, TokenSuffix, "", '/');
    r
  }

  lemma {:induction false} ReplaceAllKeepsAbsent(s: string, pat: string, rep: string, c: char)
    requires |pat| > 0 && c !in s && c !in rep
    ensures c !in ReplaceAll(s, pat, rep)
    decreases |s|
  {
    if |s| >= |pat| {
      if s[..|pat|] == pat {
        ReplaceAllKeepsAbsent(s[|pat|..], pat, rep, c);
      } else {
        ReplaceAllKeepsAbsent(s[1..], pat, rep, c);
      }
    }
  }

  /** No proper suffix of the token suffix is also a prefix of it. */
  lemma TokenSuffixHasNoBorder(k: nat)
    requires 0 < k < |TokenSuffix|
    ensures TokenSuffix[k..] != TokenSuffix[..|TokenSuffix| - k]
  {
    var p := TokenSuffix;
    if k == 10 {
      assert p[k..][1] == 'j' && p[..|p| - k][1] == 't';
    } else {
      assert p[k] != '.';
      assert p[k..][0] != p[..|p| - k][0];
    }
  }

  /** The suffix occurs in `email + suffix` only at its end when the address does not contain it. */
  lemma SuffixOnlyAtEnd(email: string)
    requires !Contains(email, TokenSuffix)
    ensures forall p: nat :: p < |email| ==> !OccursAt(email + TokenSuffix, TokenSuffix, p)
  {
    var t := TokenSuffix;
    var s := email + t;
    forall p: nat | p < |email|
      ensures !OccursAt(s, t, p)
    {
      if p + |t| <= |email| {
        assert s[p..p + |t|] == email[p..p + |t|];
        assert !OccursAt(email, t, p);
      } else if p + |t| <= |s| {
        var k := |email| - p;
        var w := s[p..p + |t|];
        assert w[k..] == t[..|t| - k];
        TokenSuffixHasNoBorder(k);
        assert w[k..] != t[k..];
      }
    }
  }

  /** Removing the suffix from `<email>.tokeninfo.json` gives the address back when the address does not contain it. */
  lemma DropSavedSuffix(email: string)
    requires !Contains(email, TokenSuffix)
    ensures ReplaceAll(email + TokenSuffix, TokenSuffix, "") == email
  {
    SuffixOnlyAtEnd(email);
    ReplaceAllSkipsPrefix(email, TokenSuffix, TokenSuffix, "");
    ReplaceAllWhole(TokenSuffix, "");
  }

  /**
   * The driver recovers the address from the file the phishing server saved
   * for it, `<dir>/<email>.tokeninfo.json`, provided the address contains
   * neither a slash nor the suffix itself.
   */
  lemma TokenEmailOfSavedFile(dir: string, email: string)
    requires '/' !in email && !Contains(email, TokenSuffix)
    ensures TokenEmail(dir + "/" + email + TokenSuffix) == email
  {
    assert '/' !in TokenSuffix;
    assert dir + "/" + email + TokenSuffix == dir + ['/'] + (email + TokenSuffix);
    LastPieceOfPath(dir, email + TokenSuffix, '/');
    DropSavedSuffix(email);
  }

  /**
   * An address that itself contains the suffix loses it, so the round trip
   * needs that precondition: `x.tokeninfo.json@ab.cd` comes back as `x@ab.cd`.
   */
  lemma TokenEmailDropsInnerSuffix(c: char, rest: string)
    requires c != '.' && c != '/' && '/' !in rest && !Contains(rest, TokenSuffix)
    ensures TokenEmail([c] + TokenSuffix + rest + TokenSuffix) == [c] + rest
  {
    var t := TokenSuffix;
    var s := [c] + (t + (rest + t));
    assert [c] + t + rest + t == s;
    assert t[0] == '.' && '/' !in t;
    ReplaceAllSkipsChar(c, t + (rest + t), t, "");
    ReplaceAllAtStart(t, rest + t, "");
    DropSavedSuffix(rest);
    TokenEmailOfName(s);
  }

  /** For a bare file name, the address is the name with every occurrence of the suffix removed. */
  lemma TokenEmailOfName(name: string)
    requires '/' !in name
    ensures TokenEmail(name) == ReplaceAll(name, TokenSuffix, "")
  {
    SplitNoSep(name, '/');
  }

  /** The second `@`-separated piece of the address; None when there is no `@` (an IndexError). */
  function DomainFrom(email: string): (r: Option<string>)
    ensures r.None? <==> '@' !in email
    ensures r.Some? ==> '@' !in r.value
  {
    var parts := Split(email, '@');
    SplitLength(email, '@');
    CountCharAbsent(email, '@');
    if |parts| >= 2 then Some(parts[1]) else None
  }

  lemma DomainOfAddress(local: string, domain: string)
    requires '@' !in local && '@' !in domain
    ensures DomainFrom(local + "@" + domain) == Some(domain)
  {
    SplitAppend(local, domain, '@');
    SplitNoSep(local, '@');
    SplitNoSep(domain, '@');
  }

  /** The `-s` argument split on commas; without it, the default keywords. */
  function KeywordsArg(search: Option<string>): (r: seq<string>)
    ensures |r| >= 1
    ensures search.None? ==> r == SearchKeywords
    ensures search.Some? ==> Join(r, ",") == search.value
  {
    if search.None? then SearchKeywords
    else
      JoinSplit(search.value, ',');
      Split(search.value, ',')
  }

  // ---------------------------------------------------------------------
  // Start-up

  /** What reading the token file gives: no file, unparsable JSON, or a JSON object that may lack `refresh_token`. */
  datatype TokenFile = NoSuchFile | NotJson | TokenJson(refreshToken: Option<string>)

  datatype Args = Args(tokenfile: string, domain: Option<string>, modules: string, search: Option<string>)

  /** Why start-up ends the process. */
  datatype Fatal = BadTokenFile | NoModules | NoDomain | NoTenantId | TenantLookupCrashed

  datatype Setup = Setup(refreshToken: string, modules: seq<string>, tokenEmail: string, domain: string,
                         tenantId: string, keywords: seq<string>, outputDir: string)

  /** The domain: `-d` when truthy, else the one in the token's address. */
  function ResolveDomain(arg: Option<string>, tokenEmail: string): Option<string>
  {
    if Truthy(arg) then arg else DomainFrom(tokenEmail)
  }

  /** Start-up gets as far as the tenant lookup: a usable token file, at least one module, and a domain. */
  predicate ReachesLookup(args: Args, file: TokenFile)
  {
    && file.TokenJson? && file.refreshToken.Some?
    && SelectModules(args.modules) != []
    && ResolveDomain(args.domain, TokenEmail(args.tokenfile)).Some?
  }

  /**
   * Start-up in the driver's order: the token file, the module list, the
   * domain, then the tenant lookup for that domain, asked of the
   * `discovery` server. The output directory is named after the address
   * and the UTC `timestamp`.
   */
  function Prepare(args: Args, file: TokenFile, discovery: string -> Acquire.DiscoveryReply, timestamp: string)
    : (r: Result<Setup, Fatal>)
    ensures r == Failure(BadTokenFile) <==> !(file.TokenJson? && file.refreshToken.Some?)
    ensures r == Failure(NoModules) <==>
      file.TokenJson? && file.refreshToken.Some? && SelectModules(args.modules) == []
    ensures r == Failure(NoDomain) <==>
      && file.TokenJson? && file.refreshToken.Some? && SelectModules(args.modules) != []
      && ResolveDomain(args.domain, TokenEmail(args.tokenfile)).None?
    ensures r == Failure(TenantLookupCrashed) <==>
      && ReachesLookup(args, file)
      && Acquire.AcquireTenantId(ResolveDomain(args.domain, TokenEmail(args.tokenfile)).value, discovery).lookup.LookupCrash?
    ensures r.Success? <==>
      && ReachesLookup(args, file)
      && var lookup := Acquire.AcquireTenantId(ResolveDomain(args.domain, TokenEmail(args.tokenfile)).value, discovery).lookup;
         lookup.Tenant? && lookup.id != ""
    ensures r.Success? ==>
      var setup := r.value;
      && setup.refreshToken == file.refreshToken.value
      && setup.modules == SelectModules(args.modules) && setup.modules != []
      && setup.tokenEmail == TokenEmail(args.tokenfile)
      && Some(setup.domain) == ResolveDomain(args.domain, setup.tokenEmail)
      && Acquire.AcquireTenantId(setup.domain, discovery)
         == Acquire.Acquired(Acquire.DiscoveryUrl(setup.domain), Acquire.Tenant(setup.tenantId))
      && setup.tenantId != ""
      && setup.keywords == KeywordsArg(args.search) && setup.keywords != []
      && setup.outputDir == "output/" + setup.tokenEmail + "." + timestamp
  {
    if !(file.TokenJson? && file.refreshToken.Some?) then Failure(BadTokenFile)
    else
      var modules := SelectModules(args.modules);
      if modules == [] then Failure(NoModules)
      else
        var tokenEmail := TokenEmail(args.tokenfile);
        var domain := ResolveDomain(args.domain, tokenEmail);
        if domain.None? then Failure(NoDomain)
        else
          match Acquire.AcquireTenantId(domain.value, discovery).lookup
          case NoTenant => Failure(NoTenantId)
          case LookupCrash => Failure(TenantLookupCrashed)
          case Tenant(id) =>
            if id == "" then Failure(NoTenantId)
            else Success(Setup(file.refreshToken.value, modules, tokenEmail, domain.value, id,
                               KeywordsArg(args.search), "output/" + tokenEmail + "." + timestamp))
  }

  // ---------------------------------------------------------------------
  // The run

  /** The network's answers to each harvest module. */
  datatype RunReplies = RunReplies(emails: Emails.Replies, groups: Groups.Replies, organization: Organization.Replies,
                                   oneDrive: OneDrive.Replies, sharePoint: SharePoint.Replies)

  predicate ExchangesSucceed(net: RunReplies)
  {
    && net.emails.exchange.error.None? && net.groups.exchange.error.None?
    && net.organization.exchange.error.None? && net.oneDrive.exchange.error.None?
    && net.sharePoint.exchange.error.None?
  }

  const ArtifactSuffixes: set<string> := {
    ".emails.json", ".searchemails.json", ".groups.json", ".organizations.json",
    ".drives.json", ".searchdrives.json", ".search.json"
  }

  /** The files a run may write: one per artifact kind, in the output directory, named after the address. */
  function ArtifactPaths(outputDir: string, tokenEmail: string): set<string>
  {
    set suffix | suffix in ArtifactSuffixes :: OutputPath(outputDir, tokenEmail + suffix)
  }

  const Scopes: seq<string> := [".default"]
  const OfficeId := TargetClientIds["Microsoft Office"]
  const SharePointId := TargetClientIds["SharePoint"]

  /** The artifact files a step may write, in the output directory and named after the address. */
  function StepPaths(dir: string, email: string, step: Step): set<string>
  {
    match step
    case EmailsStep => {OutputPath(dir, email + ".emails.json"), OutputPath(dir, email + ".searchemails.json")}
    case UsersStep => {}
    case GroupsStep => {OutputPath(dir, email + ".groups.json")}
    case OrganizationStep => {OutputPath(dir, email + ".organizations.json")}
    case OneDriveStep => {OutputPath(dir, email + ".drives.json"), OutputPath(dir, email + ".searchdrives.json")}
    case SharePointStep => {OutputPath(dir, email + ".search.json")}
  }

  /** Every file was written by one of the steps that ran. */
  predicate FromSteps(files: map<string, Artifact>, dir: string, email: string, ran: seq<Step>)
  {
    forall p :: p in files ==> exists i :: 0 <= i < |ran| && p in StepPaths(dir, email, ran[i])
  }

  /**
   * The files after one step whose token exchange succeeded, as its Fetch
   * stores them: the pages of each listing when there are any, and the
   * search response when it reports hits. The users step is not modelled.
   */
  function StepFiles(files: map<string, Artifact>, dir: string, email: string, net: RunReplies, step: Step)
    : map<string, Artifact>
  {
    match step
    case EmailsStep =>
      StoredHits(StoredPages(files, OutputPath(dir, email + ".emails.json"), Expected(net.emails.messages, DefaultLimit)),
                 OutputPath(dir, email + ".searchemails.json"), SearchOutcome(net.emails.search))
    case UsersStep => files
    case GroupsStep => StoredPages(files, OutputPath(dir, email + ".groups.json"), Expected(net.groups.groups, DefaultLimit))
    case OrganizationStep =>
      StoredPages(files, OutputPath(dir, email + ".organizations.json"), Expected(net.organization.orgs, DefaultLimit))
    case OneDriveStep =>
      StoredPages(StoredPages(files, OutputPath(dir, email + ".drives.json"), Expected(net.oneDrive.drives, DefaultLimit)),
                  OutputPath(dir, email + ".searchdrives.json"), Expected(net.oneDrive.found, DefaultLimit))
    case SharePointStep => StoredHits(files, OutputPath(dir, email + ".search.json"), SearchOutcome(net.sharePoint.search))
  }

  /** The output directory after the given steps ran in order, starting empty. */
  function RunFiles(dir: string, email: string, net: RunReplies, steps: seq<Step>): map<string, Artifact>
  {
    if steps == [] then map[]
    else StepFiles(RunFiles(dir, email, net, steps[..|steps| - 1]), dir, email, net, steps[|steps| - 1])
  }

  lemma RunFilesSnoc(dir: string, email: string, net: RunReplies, steps: seq<Step>, step: Step)
    ensures RunFiles(dir, email, net, steps + [step]) == StepFiles(RunFiles(dir, email, net, steps), dir, email, net, step)
  {
    assert (steps + [step])[..|steps|] == steps;
  }

  /** A step's new files keep `FromSteps` once the step is recorded. */
  lemma FromStepsGrows(old_files: map<string, Artifact>, files: map<string, Artifact>, dir: string, email: string,
                       ran: seq<Step>, step: Step)
    requires FromSteps(old_files, dir, email, ran)
    requires forall p :: p in files ==> p in old_files || p in StepPaths(dir, email, step)
    ensures FromSteps(files, dir, email, ran + [step])
  {
    var r := ran + [step];
    forall p | p in files
      ensures exists i :: 0 <= i < |r| && p in StepPaths(dir, email, r[i])
    {
      if p in old_files {
        var i :| 0 <= i < |ran| && p in StepPaths(dir, email, ran[i]);
        assert r[i] == ran[i];
      } else {
        assert r[|ran|] == step;
      }
    }
  }

  /** Every step's files are artifact files. */
  lemma StepsWriteArtifacts(files: map<string, Artifact>, dir: string, email: string, ran: seq<Step>)
    requires FromSteps(files, dir, email, ran)
    ensures files.Keys <= ArtifactPaths(dir, email)
  {
    forall p | p in files
      ensures p in ArtifactPaths(dir, email)
    {
      var i :| 0 <= i < |ran| && p in StepPaths(dir, email, ran[i]);
      var suffix :| suffix in ArtifactSuffixes && p == OutputPath(dir, email + suffix);
    }
  }

  /**
   * What a run threads from module to module, as far as the model tracks
   * it: the session's two cached tokens, the output directory, and how many
   * token exchanges each client has cost so far.
   */
  datatype Session = Session(office: Option<TokenReply>, sharePoint: Option<TokenReply>,
                             files: map<string, Artifact>, officeExchanges: nat, sharePointExchanges: nat)

  const Fresh := Session(None, None, map[], 0, 0)

  /** The cache after a module's exchange step: a cached token is kept, otherwise the reply unless it is an error. */
  function Cached(cached: Option<TokenReply>, reply: TokenReply): Option<TokenReply>
  {
    if cached.Some? then cached else if reply.error.Some? then None else Some(reply)
  }

  /** A "Microsoft Office" module: exchange unless cached, then store `stored` only if a token is now cached. */
  function OfficeStep(s: Session, reply: TokenReply, stored: map<string, Artifact>): Session
  {
    var token := Cached(s.office, reply);
    Session(token, s.sharePoint, if token.Some? then stored else s.files,
            s.officeExchanges + (if s.office.None? then 1 else 0), s.sharePointExchanges)
  }

  /**
   * One module's effect on the session. Each module uses its own exchange
   * reply, so a refused exchange skips only that module and leaves the cache
   * empty for the next one to try again. The users step is not modelled.
   */
  function StepSession(s: Session, dir: string, email: string, net: RunReplies, step: Step): Session
  {
    match step
    case EmailsStep => OfficeStep(s, net.emails.exchange, StepFiles(s.files, dir, email, net, step))
    case UsersStep => s
    case GroupsStep => OfficeStep(s, net.groups.exchange, StepFiles(s.files, dir, email, net, step))
    case OrganizationStep => OfficeStep(s, net.organization.exchange, StepFiles(s.files, dir, email, net, step))
    case OneDriveStep => OfficeStep(s, net.oneDrive.exchange, StepFiles(s.files, dir, email, net, step))
    case SharePointStep =>
      var token := Cached(s.sharePoint, net.sharePoint.exchange);
      Session(s.office, token, if token.Some? then StepFiles(s.files, dir, email, net, step) else s.files,
              s.officeExchanges, s.sharePointExchanges + (if s.sharePoint.None? then 1 else 0))
  }

  /** The session after the given steps ran in order, starting from a fresh one. */
  function RunSession(dir: string, email: string, net: RunReplies, steps: seq<Step>): Session
  {
    if steps == [] then Fresh
    else StepSession(RunSession(dir, email, net, steps[..|steps| - 1]), dir, email, net, steps[|steps| - 1])
  }

  lemma RunSessionSnoc(dir: string, email: string, net: RunReplies, steps: seq<Step>, step: Step)
    ensures RunSession(dir, email, net, steps + [step]) == StepSession(RunSession(dir, email, net, steps), dir, email, net, step)
  {
    assert (steps + [step])[..|steps|] == steps;
  }

  /** A step crashes when it has a token and its search failed: the hit count of None raises a TypeError. */
  predicate StepCrashes(s: Session, net: RunReplies, step: Step)
  {
    || (step == EmailsStep && Cached(s.office, net.emails.exchange).Some? && SearchOutcome(net.emails.search).None?)
    || (step == SharePointStep && Cached(s.sharePoint, net.sharePoint.exchange).Some?
        && SearchOutcome(net.sharePoint.search).None?)
  }

  /** No step of `ran` crashes on the session the earlier steps left. */
  predicate CrashFree(dir: string, email: string, net: RunReplies, ran: seq<Step>)
  {
    forall i :: 0 <= i < |ran| ==> !StepCrashes(RunSession(dir, email, net, ran[..i]), net, ran[i])
  }

  lemma CrashFreeSnoc(dir: string, email: string, net: RunReplies, ran: seq<Step>, step: Step)
    requires CrashFree(dir, email, net, ran)
    requires !StepCrashes(RunSession(dir, email, net, ran), net, step)
    ensures CrashFree(dir, email, net, ran + [step])
  {
    var r := ran + [step];
    forall i | 0 <= i < |r|
      ensures !StepCrashes(RunSession(dir, email, net, r[..i]), net, r[i])
    {
      if i < |ran| {
        assert r[..i] == ran[..i] && r[i] == ran[i];
      } else {
        assert r[..i] == ran;
      }
    }
  }

  /** When a step's own exchange succeeds, its token is cached, so the step stores exactly its `StepFiles`. */
  lemma StepFilesWhenExchangesSucceed(s: Session, dir: string, email: string, net: RunReplies, step: Step)
    requires ExchangesSucceed(net)
    ensures StepSession(s, dir, email, net, step).files == StepFiles(s.files, dir, email, net, step)
  {
  }

  /** When every exchange succeeds, each step's token is cached, so each step stores exactly its `StepFiles`. */
  lemma {:induction false} SessionFilesWhenExchangesSucceed(dir: string, email: string, net: RunReplies, steps: seq<Step>)
    requires ExchangesSucceed(net)
    ensures RunSession(dir, email, net, steps).files == RunFiles(dir, email, net, steps)
  {
    if steps != [] {
      var prefix, last := steps[..|steps| - 1], steps[|steps| - 1];
      SessionFilesWhenExchangesSucceed(dir, email, net, prefix);
      StepFilesWhenExchangesSucceed(RunSession(dir, email, net, prefix), dir, email, net, last);
    }
  }

  /** When every exchange succeeds, each client's token is obtained at most once, and only if it is cached. */
  lemma {:induction false} ExchangedOnceWhenExchangesSucceed(dir: string, email: string, net: RunReplies, steps: seq<Step>)
    requires ExchangesSucceed(net)
    ensures var s := RunSession(dir, email, net, steps);
      && s.officeExchanges == (if s.office.Some? then 1 else 0)
      && s.sharePointExchanges == (if s.sharePoint.Some? then 1 else 0)
  {
    if steps != [] {
      ExchangedOnceWhenExchangesSucceed(dir, email, net, steps[..|steps| - 1]);
    }
  }

  /** Only the SharePoint step exchanges for the SharePoint client. */
  lemma {:induction false} NoSharePointExchangeWithoutStep(dir: string, email: string, net: RunReplies, steps: seq<Step>)
    requires SharePointStep !in steps
    ensures RunSession(dir, email, net, steps).sharePointExchanges == 0
    ensures RunSession(dir, email, net, steps).sharePoint.None?
  {
    if steps != [] {
      assert steps[|steps| - 1] in steps;
      assert forall x :: x in steps[..|steps| - 1] ==> x in steps;
      NoSharePointExchangeWithoutStep(dir, email, net, steps[..|steps| - 1]);
    }
  }

  /** When every exchange succeeds, a step crashes exactly when it is a search step whose search failed. */
  lemma CrashesWhenExchangesSucceed(s: Session, net: RunReplies, step: Step)
    requires ExchangesSucceed(net)
    ensures StepCrashes(s, net, step) <==>
      || (step == EmailsStep && SearchOutcome(net.emails.search).None?)
      || (step == SharePointStep && SearchOutcome(net.sharePoint.search).None?)
  {
  }

  /**
   * What holds between two modules of a run: the files written come from
   * the steps that ran, and the session's caches, files and exchange counts
   * are those of `RunSession` over those steps.
   */
  predicate Kept(st: ModuleState, files: map<string, Artifact>, calls: seq<Call>, net: RunReplies, ran: seq<Step>)
    reads st
  {
    && FromSteps(files, st.outputDir, st.tokenEmail, ran)
    && var s := RunSession(st.outputDir, st.tokenEmail, net, ran);
       && st.msofficeRefreshToken == s.office && st.sharepointRefreshToken == s.sharePoint
       && files == s.files
       && ExchangesFor(calls, OfficeId) == s.officeExchanges
       && ExchangesFor(calls, SharePointId) == s.sharePointExchanges
  }

  method RunEmails(st: ModuleState, hs: HeaderStore, out: OutputFiles, calls: seq<Call>, net: RunReplies,
                   ghost ran: seq<Step>)
      returns (after: seq<Call>, crashed: bool)
    requires Kept(st, out.files, calls, net, ran)
    modifies st, hs, out
    ensures Kept(st, out.files, after, net, ran + [EmailsStep])
    ensures crashed <==> StepCrashes(RunSession(st.outputDir, st.tokenEmail, net, ran), net, EmailsStep)
  {
    ghost var cached := st.msofficeRefreshToken;
    ghost var before := out.files;
    var outcome, c := Emails.Fetch(st, hs, out, Scopes, net.emails);
    ghost var exchanged := ExchangeStep(cached, st, "Microsoft Office", Scopes, net.emails.exchange).1;
    ExchangesOfModule(calls, c, exchanged, OfficeId);
    ExchangesOfModule(calls, c, exchanged, SharePointId);
    after := calls + c;
    crashed := outcome.Crashed?;
    FromStepsGrows(before, out.files, st.outputDir, st.tokenEmail, ran, EmailsStep);
    RunSessionSnoc(st.outputDir, st.tokenEmail, net, ran, EmailsStep);
  }

  method RunGroups(st: ModuleState, hs: HeaderStore, out: OutputFiles, calls: seq<Call>, net: RunReplies,
                   ghost ran: seq<Step>)
      returns (after: seq<Call>)
    requires Kept(st, out.files, calls, net, ran)
    modifies st, hs, out
    ensures Kept(st, out.files, after, net, ran + [GroupsStep])
  {
    ghost var cached := st.msofficeRefreshToken;
    ghost var before := out.files;
    var c := Groups.Fetch(st, hs, out, Scopes, net.groups);
    ghost var exchanged := ExchangeStep(cached, st, "Microsoft Office", Scopes, net.groups.exchange).1;
    ExchangesOfModule(calls, c, exchanged, OfficeId);
    ExchangesOfModule(calls, c, exchanged, SharePointId);
    after := calls + c;
    FromStepsGrows(before, out.files, st.outputDir, st.tokenEmail, ran, GroupsStep);
    RunSessionSnoc(st.outputDir, st.tokenEmail, net, ran, GroupsStep);
  }

  method RunOrganization(st: ModuleState, hs: HeaderStore, out: OutputFiles, calls: seq<Call>, net: RunReplies,
                         ghost ran: seq<Step>)
      returns (after: seq<Call>)
    requires Kept(st, out.files, calls, net, ran)
    modifies st, hs, out
    ensures Kept(st, out.files, after, net, ran + [OrganizationStep])
  {
    ghost var cached := st.msofficeRefreshToken;
    ghost var before := out.files;
    var c := Organization.Fetch(st, hs, out, Scopes, net.organization);
    ghost var exchanged := ExchangeStep(cached, st, "Microsoft Office", Scopes, net.organization.exchange).1;
    ExchangesOfModule(calls, c, exchanged, OfficeId);
    ExchangesOfModule(calls, c, exchanged, SharePointId);
    after := calls + c;
    FromStepsGrows(before, out.files, st.outputDir, st.tokenEmail, ran, OrganizationStep);
    RunSessionSnoc(st.outputDir, st.tokenEmail, net, ran, OrganizationStep);
  }

  method RunOneDrive(st: ModuleState, hs: HeaderStore, out: OutputFiles, calls: seq<Call>, net: RunReplies,
                     ghost ran: seq<Step>)
      returns (after: seq<Call>)
    requires Kept(st, out.files, calls, net, ran)
    modifies st, hs, out
    ensures Kept(st, out.files, after, net, ran + [OneDriveStep])
  {
    ghost var cached := st.msofficeRefreshToken;
    ghost var before := out.files;
    var c := OneDrive.Fetch(st, hs, out, Scopes, net.oneDrive);
    ghost var exchanged := ExchangeStep(cached, st, "Microsoft Office", Scopes, net.oneDrive.exchange).1;
    ExchangesOfModule(calls, c, exchanged, OfficeId);
    ExchangesOfModule(calls, c, exchanged, SharePointId);
    after := calls + c;
    assert forall p :: p in out.files ==> p in before || p in StepPaths(st.outputDir, st.tokenEmail, OneDriveStep);
    FromStepsGrows(before, out.files, st.outputDir, st.tokenEmail, ran, OneDriveStep);
    RunSessionSnoc(st.outputDir, st.tokenEmail, net, ran, OneDriveStep);
  }

  method RunSharePoint(st: ModuleState, hs: HeaderStore, out: OutputFiles, calls: seq<Call>, net: RunReplies,
                       ghost ran: seq<Step>)
      returns (after: seq<Call>, crashed: bool)
    requires Kept(st, out.files, calls, net, ran)
    modifies st, hs, out
    ensures Kept(st, out.files, after, net, ran + [SharePointStep])
    ensures crashed <==> StepCrashes(RunSession(st.outputDir, st.tokenEmail, net, ran), net, SharePointStep)
  {
    ghost var cached := st.sharepointRefreshToken;
    ghost var before := out.files;
    var outcome, c := SharePoint.Fetch(st, hs, out, Scopes, net.sharePoint);
    ghost var exchanged := ExchangeStep(cached, st, "SharePoint", Scopes, net.sharePoint.exchange).1;
    ExchangesOfModule(calls, c, exchanged, OfficeId);
    ExchangesOfModule(calls, c, exchanged, SharePointId);
    after := calls + c;
    crashed := outcome.Crashed?;
    FromStepsGrows(before, out.files, st.outputDir, st.tokenEmail, ran, SharePointStep);
    RunSessionSnoc(st.outputDir, st.tokenEmail, net, ran, SharePointStep);
  }

  /** The users step is recorded but, with users.py outside this model, changes nothing the model tracks. */
  lemma KeptUsers(st: ModuleState, files: map<string, Artifact>, calls: seq<Call>, net: RunReplies, ran: seq<Step>)
    requires Kept(st, files, calls, net, ran)
    ensures Kept(st, files, calls, net, ran + [UsersStep])
    ensures !StepCrashes(RunSession(st.outputDir, st.tokenEmail, net, ran), net, UsersStep)
  {
    FromStepsGrows(files, files, st.outputDir, st.tokenEmail, ran, UsersStep);
    RunSessionSnoc(st.outputDir, st.tokenEmail, net, ran, UsersStep);
  }

  /** A step alone, when it is selected. */
  function Opt(modules: seq<string>, step: Step): seq<Step>
  {
    if Selected(modules, step) then [step] else []
  }

  /** One step of `PlanOf`: the first step, when selected, then the plan of the rest. */
  lemma PlanOfCons(modules: seq<string>, steps: seq<Step>)
    requires Increasing(steps) && steps != []
    ensures Increasing(steps[1..])
    ensures PlanOf(modules, steps) == Opt(modules, steps[0]) + PlanOf(modules, steps[1..])
  {
    IncreasingSplit(steps);
  }

  /** The plan is each step of the fixed order, kept exactly when it is selected. */
  lemma PlanUnfolds(modules: seq<string>)
    ensures Plan(modules) == Opt(modules, EmailsStep) + Opt(modules, UsersStep) + Opt(modules, GroupsStep)
      + Opt(modules, OrganizationStep) + Opt(modules, OneDriveStep) + Opt(modules, SharePointStep)
  {
    var s5 := [SharePointStep];
    var s4 := [OneDriveStep] + s5;
    var s3 := [OrganizationStep] + s4;
    var s2 := [GroupsStep] + s3;
    var s1 := [UsersStep] + s2;
    PlanOfSteps(modules, Order, s1, s2, s3, s4, s5);
    Reassociate(Opt(modules, EmailsStep), Opt(modules, UsersStep), Opt(modules, GroupsStep),
                Opt(modules, OrganizationStep), Opt(modules, OneDriveStep), Opt(modules, SharePointStep));
  }

  lemma Reassociate(a: seq<Step>, b: seq<Step>, c: seq<Step>, d: seq<Step>, e: seq<Step>, f: seq<Step>)
    ensures a + (b + (c + (d + (e + f)))) == a + b + c + d + e + f
  {
    assert d + (e + f) == d + e + f;
    assert c + (d + e + f) == c + d + e + f;
    assert b + (c + d + e + f) == b + c + d + e + f;
    assert a + (b + c + d + e + f) == a + b + c + d + e + f;
  }

  lemma PlanOfSteps(modules: seq<string>, s0: seq<Step>, s1: seq<Step>, s2: seq<Step>, s3: seq<Step>, s4: seq<Step>,
                    s5: seq<Step>)
    requires Increasing(s0)
    requires s0 == [EmailsStep] + s1 && s1 == [UsersStep] + s2 && s2 == [GroupsStep] + s3
    requires s3 == [OrganizationStep] + s4 && s4 == [OneDriveStep] + s5 && s5 == [SharePointStep]
    ensures PlanOf(modules, s0) == Opt(modules, EmailsStep) + (Opt(modules, UsersStep) + (Opt(modules, GroupsStep)
      + (Opt(modules, OrganizationStep) + (Opt(modules, OneDriveStep) + Opt(modules, SharePointStep)))))
  {
    var p1 := PlanOfTail(modules, EmailsStep, s1);
    var p2 := PlanOfTail(modules, UsersStep, s2);
    var p3 := PlanOfTail(modules, GroupsStep, s3);
    var p4 := PlanOfTail(modules, OrganizationStep, s4);
    var p5 := PlanOfTail(modules, OneDriveStep, s5);
    var p6 := PlanOfTail(modules, SharePointStep, []);
    assert [SharePointStep] + [] == s5;
  }

  /** `PlanOf` on a step followed by the rest, as a ghost value so each use stays one step deep. */
  lemma PlanOfTail(modules: seq<string>, x: Step, rest: seq<Step>) returns (p: seq<Step>)
    requires Increasing([x] + rest)
    ensures Increasing(rest)
    ensures p == PlanOf(modules, rest)
    ensures PlanOf(modules, [x] + rest) == Opt(modules, x) + p
  {
    PlanOfCons(modules, [x] + rest);
    assert ([x] + rest)[1..] == rest;
    p := PlanOf(modules, rest);
  }


  /** The last office steps: organization and OneDrive, each when selected. */
  method RunLaterListings(st: ModuleState, hs: HeaderStore, out: OutputFiles, calls: seq<Call>, net: RunReplies,
                          m: seq<string>, ghost ran: seq<Step>)
      returns (after: seq<Call>, ghost done: seq<Step>)
    requires Kept(st, out.files, calls, net, ran) && SharePointStep !in ran
    requires CrashFree(st.outputDir, st.tokenEmail, net, ran)
    modifies st, hs, out
    ensures Kept(st, out.files, after, net, done) && SharePointStep !in done
    ensures CrashFree(st.outputDir, st.tokenEmail, net, done)
    ensures done == ran + Opt(m, OrganizationStep) + Opt(m, OneDriveStep)
  {
    ghost var dir, email := st.outputDir, st.tokenEmail;
    after := calls;
    done := ran;
    if Selected(m, OrganizationStep) {
      CrashFreeSnoc(dir, email, net, done, OrganizationStep);
      after := RunOrganization(st, hs, out, after, net, done);
      done := done + [OrganizationStep];
    }
    ghost var d1 := done;
    assert d1 == ran + Opt(m, OrganizationStep) && SharePointStep !in d1;
    if Selected(m, OneDriveStep) {
      CrashFreeSnoc(dir, email, net, done, OneDriveStep);
      after := RunOneDrive(st, hs, out, after, net, done);
      done := done + [OneDriveStep];
    }
    assert done == d1 + Opt(m, OneDriveStep) && SharePointStep !in done;
  }

  /** The listing steps after emails: users, groups, organization and OneDrive, each when selected. */
  method RunListings(st: ModuleState, hs: HeaderStore, out: OutputFiles, calls: seq<Call>, net: RunReplies,
                     m: seq<string>, ghost ran: seq<Step>)
      returns (after: seq<Call>, ghost done: seq<Step>)
    requires Kept(st, out.files, calls, net, ran) && SharePointStep !in ran
    requires CrashFree(st.outputDir, st.tokenEmail, net, ran)
    modifies st, hs, out
    ensures Kept(st, out.files, after, net, done) && SharePointStep !in done
    ensures CrashFree(st.outputDir, st.tokenEmail, net, done)
    ensures done == ran + Opt(m, UsersStep) + Opt(m, GroupsStep) + Opt(m, OrganizationStep) + Opt(m, OneDriveStep)
  {
    ghost var dir, email := st.outputDir, st.tokenEmail;
    after := calls;
    done := ran;
    if Selected(m, UsersStep) {
      // users.py is not part of this model: the step is recorded, its requests and file are not
      KeptUsers(st, out.files, after, net, done);
      CrashFreeSnoc(dir, email, net, done, UsersStep);
      done := done + [UsersStep];
    }
    ghost var d1 := done;
    assert d1 == ran + Opt(m, UsersStep) && SharePointStep !in d1;
    if Selected(m, GroupsStep) {
      CrashFreeSnoc(dir, email, net, done, GroupsStep);
      after := RunGroups(st, hs, out, after, net, done);
      done := done + [GroupsStep];
    }
    ghost var d2 := done;
    assert d2 == d1 + Opt(m, GroupsStep) && SharePointStep !in d2;
    after, done := RunLaterListings(st, hs, out, after, net, m, done);
    assert done == d2 + Opt(m, OrganizationStep) + Opt(m, OneDriveStep);
  }

  /** The office steps of a run: emails, users, groups, organization and OneDrive, each when selected. */
  method RunOfficeSteps(st: ModuleState, hs: HeaderStore, out: OutputFiles, net: RunReplies, m: seq<string>)
      returns (crashed: bool, calls: seq<Call>, ghost ran: seq<Step>)
    requires Kept(st, out.files, [], net, [])
    modifies st, hs, out
    ensures Kept(st, out.files, calls, net, ran) && SharePointStep !in ran
    ensures !crashed ==> ran == Opt(m, EmailsStep) + Opt(m, UsersStep) + Opt(m, GroupsStep)
                                + Opt(m, OrganizationStep) + Opt(m, OneDriveStep)
    ensures !crashed ==> CrashFree(st.outputDir, st.tokenEmail, net, ran)
    ensures crashed ==> ran == [EmailsStep] && Selected(m, EmailsStep) && StepCrashes(Fresh, net, EmailsStep)
  {
    ghost var dir, email := st.outputDir, st.tokenEmail;
    calls := [];
    crashed := false;
    ran := [];
    if Selected(m, EmailsStep) {
      calls, crashed := RunEmails(st, hs, out, calls, net, ran);
      if !crashed {
        CrashFreeSnoc(dir, email, net, ran, EmailsStep);
      }
      ran := ran + [EmailsStep];
    }
    if crashed {
      return;
    }
    assert ran == Opt(m, EmailsStep);
    calls, ran := RunListings(st, hs, out, calls, net, m, ran);
  }

  /** The dispatch itself: each selected module in the fixed order, stopping at the first crash. */
  method RunModules(setup: Setup, net: RunReplies)
      returns (crashed: bool, calls: seq<Call>, files: map<string, Artifact>, ghost ran: seq<Step>)
    ensures !crashed ==> ran == Plan(setup.modules) && CrashFree(setup.outputDir, setup.tokenEmail, net, ran)
    ensures crashed ==>
      && ran != [] && ran <= Plan(setup.modules)
      && CrashFree(setup.outputDir, setup.tokenEmail, net, ran[..|ran| - 1])
      && StepCrashes(RunSession(setup.outputDir, setup.tokenEmail, net, ran[..|ran| - 1]), net, ran[|ran| - 1])
    ensures files == RunSession(setup.outputDir, setup.tokenEmail, net, ran).files
    ensures ExchangesFor(calls, OfficeId) == RunSession(setup.outputDir, setup.tokenEmail, net, ran).officeExchanges
    ensures ExchangesFor(calls, SharePointId) == RunSession(setup.outputDir, setup.tokenEmail, net, ran).sharePointExchanges
    ensures files.Keys <= ArtifactPaths(setup.outputDir, setup.tokenEmail)
    ensures FromSteps(files, setup.outputDir, setup.tokenEmail, ran)
    ensures !Selected(setup.modules, SharePointStep) ==> ExchangesFor(calls, SharePointId) == 0
  {
    var st := new ModuleState(setup.outputDir, setup.domain, setup.tenantId, setup.tokenEmail, setup.refreshToken,
                              Some(setup.keywords));
    var hs := new HeaderStore();
    var out := new OutputFiles();
    var m := setup.modules;
    PlanUnfolds(m);
    crashed, calls, ran := RunOfficeSteps(st, hs, out, net, m);
    if !crashed && Selected(m, SharePointStep) {
      ghost var before := ran;
      calls, crashed := RunSharePoint(st, hs, out, calls, net, ran);
      if !crashed {
        CrashFreeSnoc(setup.outputDir, setup.tokenEmail, net, ran, SharePointStep);
      }
      ran := ran + [SharePointStep];
      assert ran[..|ran| - 1] == before;
    }
    files := out.files;
    StepsWriteArtifacts(files, setup.outputDir, setup.tokenEmail, ran);
    if !Selected(m, SharePointStep) {
      NoSharePointExchangeWithoutStep(setup.outputDir, setup.tokenEmail, net, ran);
    }
  }

  /**
   * The module dispatch: run each selected module in the fixed order with
   * one shared session, header map and output directory; `ran` records the
   * steps that ran. The run goes through the plan until a step crashes:
   * without a crash exactly the plan ran and no step crashed, and with one
   * the run stopped at the first crashing step. The output directory, the
   * caches and the exchange counts are those `RunSession` gives for the
   * steps that ran, whatever the exchanges replied.
   */
  method Run(setup: Setup, net: RunReplies)
      returns (crashed: bool, calls: seq<Call>, files: map<string, Artifact>, ghost ran: seq<Step>)
    ensures !crashed ==> ran == Plan(setup.modules) && CrashFree(setup.outputDir, setup.tokenEmail, net, ran)
    ensures crashed ==>
      && ran != [] && ran <= Plan(setup.modules)
      && CrashFree(setup.outputDir, setup.tokenEmail, net, ran[..|ran| - 1])
      && StepCrashes(RunSession(setup.outputDir, setup.tokenEmail, net, ran[..|ran| - 1]), net, ran[|ran| - 1])
    ensures files == RunSession(setup.outputDir, setup.tokenEmail, net, ran).files
    ensures ExchangesFor(calls, OfficeId) == RunSession(setup.outputDir, setup.tokenEmail, net, ran).officeExchanges
    ensures ExchangesFor(calls, SharePointId) == RunSession(setup.outputDir, setup.tokenEmail, net, ran).sharePointExchanges
    ensures files.Keys <= ArtifactPaths(setup.outputDir, setup.tokenEmail)
    ensures FromSteps(files, setup.outputDir, setup.tokenEmail, ran)
    ensures !Selected(setup.modules, SharePointStep) ==> ExchangesFor(calls, SharePointId) == 0
    ensures crashed ==>
      || (ran[|ran| - 1] == EmailsStep && SearchOutcome(net.emails.search).None?)
      || (ran[|ran| - 1] == SharePointStep && SearchOutcome(net.sharePoint.search).None?)
    ensures ExchangesSucceed(net) ==>
      (crashed <==>
         || (Selected(setup.modules, EmailsStep) && SearchOutcome(net.emails.search).None?)
         || (Selected(setup.modules, SharePointStep) && SearchOutcome(net.sharePoint.search).None?))
    ensures ExchangesSucceed(net) ==> files == RunFiles(setup.outputDir, setup.tokenEmail, net, ran)
    ensures ExchangesSucceed(net) ==> ExchangesFor(calls, OfficeId) <= 1 && ExchangesFor(calls, SharePointId) <= 1
  {
    crashed, calls, files, ran := RunModules(setup, net);
    if ExchangesSucceed(net) {
      CrashWhenExchangesSucceed(setup.modules, setup.outputDir, setup.tokenEmail, net, crashed, ran);
      SessionFilesWhenExchangesSucceed(setup.outputDir, setup.tokenEmail, net, ran);
      ExchangedOnceWhenExchangesSucceed(setup.outputDir, setup.tokenEmail, net, ran);
    }
  }

  /**
   * When every exchange succeeds, the run crashes exactly when a selected
   * emails or SharePoint search fails.
   */
  lemma CrashWhenExchangesSucceed(m: seq<string>, dir: string, email: string, net: RunReplies, crashed: bool,
                                  ran: seq<Step>)
    requires ExchangesSucceed(net)
    requires !crashed ==> ran == Plan(m) && CrashFree(dir, email, net, ran)
    requires crashed ==>
      && ran != [] && ran <= Plan(m)
      && StepCrashes(RunSession(dir, email, net, ran[..|ran| - 1]), net, ran[|ran| - 1])
    ensures crashed <==>
      || (Selected(m, EmailsStep) && SearchOutcome(net.emails.search).None?)
      || (Selected(m, SharePointStep) && SearchOutcome(net.sharePoint.search).None?)
  {
    var plan := Plan(m);
    if crashed {
      var last := ran[|ran| - 1];
      CrashesWhenExchangesSucceed(RunSession(dir, email, net, ran[..|ran| - 1]), net, last);
      assert last in plan;
    } else {
      forall step | step in plan
        ensures !((step == EmailsStep && SearchOutcome(net.emails.search).None?)
                  || (step == SharePointStep && SearchOutcome(net.sharePoint.search).None?))
      {
        var i :| 0 <= i < |plan| && plan[i] == step;
        CrashesWhenExchangesSucceed(RunSession(dir, email, net, plan[..i]), net, step);
      }
    }
  }
}
