/**
 * Start-up checks of the phishing tool: validating the configuration file
 * for the chosen module (`email` or `server`) before anything runs, and,
 * for the server, choosing the TLS context and the port.
 *
 * Reading the file is an oracle (`ReadResult`); the filesystem is a map
 * from existing file names to their contents.
 */
module Squish {
  import opened Strings
  import opened ConfigParser

  /** Options every run needs in DEFAULT. */
  const ConfigDefault := ["SMTP_PORT", "SMTP_SERVER", "SMTP_PROTO", "SMTP_EMAIL", "SMTP_PASSWORD"]
  /** Options the `email` module needs in EMAIL. */
  const ConfigEmail := ["SQUAREPHISH_SERVER", "SQUAREPHISH_PORT", "SQUAREPHISH_ENDPOINT", "FROM_EMAIL", "SUBJECT", "EMAIL_TEMPLATE"]
  /** Options the `server` module needs in SERVER. */
  const ConfigServer := ["PORT", "FROM_EMAIL", "SUBJECT", "CLIENT_ID", "ENDPOINT", "EMAIL_TEMPLATE", "PERMISSION_SCOPE"]

  /** What reading the file gives: a duplicate option, or the parsed contents. */
  datatype ReadResult = DuplicateOption | Parsed(ini: Ini)

  /** Why the program stops before serving or mailing. */
  datatype Fatal =
    | DuplicateOptionFatal
    | MissingSection(section: string)
    | EmptyOption(section: string, option: string)
    | LookupFailed(error: ConfigError)
    | BadTemplate(section: string)
    | BadCertificates
    | BadPort

  /** `sections()` lists every section but DEFAULT. */
  predicate HasSection(ini: Ini, section: string)
  {
    section != DefaultSection && section in ini.sections
  }

  // ---------------------------------------------------------------------
  // required options

  /** `if not config.get(section, option)`: absent, or empty once its quotes are stripped. */
  function OptionFault(ini: Ini, section: string, option: string): (r: Option<Fatal>)
    ensures r.None? <==> Get(ini, section, option).Success? && Get(ini, section, option).value != ""
  {
    match Get(ini, section, option)
    case Success(v) => if v == "" then Some(EmptyOption(section, option)) else None
    case Failure(e) => Some(LookupFailed(e))
  }

  /** The fault of the first required option, in list order, that is absent or empty. */
  function FirstFault(ini: Ini, section: string, names: seq<string>): (r: Option<Fatal>)
    ensures r.None? <==> forall i :: 0 <= i < |names| ==> OptionFault(ini, section, names[i]).None?
    ensures r.Some? ==> r.value.EmptyOption? || r.value.LookupFailed?
  {
    if names == [] then None
    else if OptionFault(ini, section, names[0]).Some? then OptionFault(ini, section, names[0])
    else
      var rest := FirstFault(ini, section, names[1..]);
      assert forall i :: 1 <= i < |names| ==> names[i] == names[1..][i - 1];
      rest
  }

  /** The fault reported is that of the first option, in list order, that is absent or empty. */
  lemma {:induction false} FirstFaultIsFirst(ini: Ini, section: string, names: seq<string>)
    requires FirstFault(ini, section, names).Some?
    ensures exists i :: 0 <= i < |names| && FirstFault(ini, section, names) == OptionFault(ini, section, names[i]) &&
                        forall j :: 0 <= j < i ==> OptionFault(ini, section, names[j]).None?
  {
    if OptionFault(ini, section, names[0]).Some? {
      assert FirstFault(ini, section, names) == OptionFault(ini, section, names[0]);
    } else {
      FirstFaultIsFirst(ini, section, names[1..]);
      var i :| 0 <= i < |names[1..]| && FirstFault(ini, section, names[1..]) == OptionFault(ini, section, names[1..][i]) &&
               forall j :: 0 <= j < i ==> OptionFault(ini, section, names[1..][j]).None?;
      assert names[1..][i] == names[i + 1];
      forall j | 0 <= j < i + 1
        ensures OptionFault(ini, section, names[j]).None?
      {
        if j > 0 {
          assert names[j] == names[1..][j - 1];
        }
      }
    }
  }

  /** One of the `for val in ...: if not config.get(...)` loops: stops at the first bad option. */
  method CheckRequired(config: CustomConfigParser, section: string, names: seq<string>) returns (fault: Option<Fatal>)
    ensures fault == FirstFault(config.ini, section, names)
  {
    var i := 0;
    while i < |names|
      invariant i <= |names|
      invariant FirstFault(config.ini, section, names) == FirstFault(config.ini, section, names[i..])
    {
      assert names[i..][0] == names[i] && names[i..][1..] == names[i + 1..];
      var v := Get(config.ini, section, names[i]);
      if v.Failure? {
        return Some(LookupFailed(v.error));
      }
      if v.value == "" {
        return Some(EmptyOption(section, names[i]));
      }
      i := i + 1;
    }
    return None;
  }

  // ---------------------------------------------------------------------
  // template and certificates

  /** The module's EMAIL_TEMPLATE must name an existing file; its value becomes the file's contents. */
  function LoadTemplate(ini: Ini, section: string, files: map<string, string>): (r: Result<Ini, Fatal>)
    ensures r.Success? ==> exists path :: Get(ini, section, "EMAIL_TEMPLATE") == Success(path) && path in files &&
                                         SetIn(ini, section, "EMAIL_TEMPLATE", files[path]) == Success(r.value)
    ensures Get(ini, section, "EMAIL_TEMPLATE").Success? && Get(ini, section, "EMAIL_TEMPLATE").value !in files ==>
      r == Failure(BadTemplate(section))
  {
    match Get(ini, section, "EMAIL_TEMPLATE")
    case Failure(e) => Failure(LookupFailed(e))
    case Success(path) =>
      if path !in files then Failure(BadTemplate(section))
      else
        match SetIn(ini, section, "EMAIL_TEMPLATE", files[path])
        case Success(updated) => Success(updated)
        case Failure(e) => Failure(LookupFailed(e))
  }

  /**
   * The certificate rule: only when CERT_CRT and CERT_KEY are both present
   * and non-empty must both name existing files. A missing option skips
   * the check; CERT_KEY is not looked at when CERT_CRT is empty.
   */
  function CertificateFault(ini: Ini, files: map<string, string>): (r: Option<Fatal>)
    ensures r == Some(BadCertificates) <==>
      && Get(ini, "SERVER", "CERT_CRT").Success? && Get(ini, "SERVER", "CERT_CRT").value != ""
      && Get(ini, "SERVER", "CERT_KEY").Success? && Get(ini, "SERVER", "CERT_KEY").value != ""
      && (Get(ini, "SERVER", "CERT_CRT").value !in files || Get(ini, "SERVER", "CERT_KEY").value !in files)
    ensures Get(ini, "SERVER", "CERT_CRT") == Failure(NoOptionError("SERVER", "cert_crt")) ==> r.None?
  {
    match Get(ini, "SERVER", "CERT_CRT")
    case Failure(NoOptionError(_, _)) => None
    case Failure(e) => Some(LookupFailed(e))
    case Success(crt) =>
      if crt == "" then None
      else
        match Get(ini, "SERVER", "CERT_KEY")
        case Failure(NoOptionError(_, _)) => None
        case Failure(e) => Some(LookupFailed(e))
        case Success(key) =>
          if key == "" then None
          else if crt !in files || key !in files then Some(BadCertificates)
          else None
  }

  // ---------------------------------------------------------------------
  // parse_config

  /** The section a module requires and its required options. */
  function ModuleSection(moduleName: string): Option<(string, seq<string>)>
  {
    if moduleName == "email" then Some(("EMAIL", ConfigEmail))
    else if moduleName == "server" then Some(("SERVER", ConfigServer))
    else None
  }

  /**
   * `parse_config` as a function of what was read: the checks in the
   * source's order, each fatal, then the template replaced by the file's
   * contents and, for the server, the certificate files checked.
   */
  function Configure(read: ReadResult, moduleName: string, files: map<string, string>): (r: Result<Ini, Fatal>)
    ensures read.DuplicateOption? ==> r == Failure(DuplicateOptionFatal)
    ensures read.Parsed? && ModuleSection(moduleName).Some? && !HasSection(read.ini, ModuleSection(moduleName).value.0) ==>
      r == Failure(MissingSection(ModuleSection(moduleName).value.0))
    ensures r.Success? ==> read.Parsed?
  {
    match read
    case DuplicateOption => Failure(DuplicateOptionFatal)
    case Parsed(ini) => Validate(ini, moduleName, files)
  }

  /** The checks on a file that was read without a duplicate option. */
  function Validate(ini: Ini, moduleName: string, files: map<string, string>): Result<Ini, Fatal>
  {
    if ModuleSection(moduleName).Some? && !HasSection(ini, ModuleSection(moduleName).value.0) then
      Failure(MissingSection(ModuleSection(moduleName).value.0))
    else if FirstFault(ini, DefaultSection, ConfigDefault).Some? then Failure(FirstFault(ini, DefaultSection, ConfigDefault).value)
    else
      match ModuleSection(moduleName)
      case None => Success(ini)
      case Some((section, names)) =>
        if FirstFault(ini, section, names).Some? then Failure(FirstFault(ini, section, names).value)
        else
          match LoadTemplate(ini, section, files)
          case Failure(e) => Failure(e)
          case Success(loaded) =>
            if moduleName == "server" && CertificateFault(loaded, files).Some? then Failure(CertificateFault(loaded, files).value)
            else Success(loaded)
  }

  /** `parse_config`: build the parser, run the checks, replace the template in place. */
  method ParseConfig(read: ReadResult, moduleName: string, files: map<string, string>) returns (r: Result<CustomConfigParser, Fatal>)
    ensures r.Failure? <==> Configure(read, moduleName, files).Failure?
    ensures r.Failure? ==> r.error == Configure(read, moduleName, files).error
    ensures r.Success? ==> r.value.ini == Configure(read, moduleName, files).value
  {
    if read.DuplicateOption? {
      return Failure(DuplicateOptionFatal);
    }
    var config := new CustomConfigParser(read.ini);
    if moduleName == "email" && !HasSection(config.ini, "EMAIL") {
      return Failure(MissingSection("EMAIL"));
    }
    if moduleName == "server" && !HasSection(config.ini, "SERVER") {
      return Failure(MissingSection("SERVER"));
    }
    var fault := CheckRequired(config, DefaultSection, ConfigDefault);
    if fault.Some? {
      return Failure(fault.value);
    }
    if moduleName == "email" || moduleName == "server" {
      var section := if moduleName == "email" then "EMAIL" else "SERVER";
      fault := CheckRequired(config, section, if moduleName == "email" then ConfigEmail else ConfigServer);
      if fault.Some? {
        return Failure(fault.value);
      }
      var path := Get(config.ini, section, "EMAIL_TEMPLATE");
      if path.Failure? {
        return Failure(LookupFailed(path.error));
      }
      if path.value !in files {
        return Failure(BadTemplate(section));
      }
      var err := config.Set(section, "EMAIL_TEMPLATE", files[path.value]);
      // the section was found above, so `set` cannot raise here
      assert err.None?;
      if moduleName == "server" {
        fault := CertificateFault(config.ini, files);
        if fault.Some? {
          return Failure(fault.value);
        }
      }
    }
    return Success(config);
  }

  /**
   * An accepted configuration has every required option of DEFAULT, and of
   * the module's section, present and non-empty once its quotes are stripped.
   */
  lemma ConfiguredHasRequired(read: ReadResult, moduleName: string, files: map<string, string>)
    requires Configure(read, moduleName, files).Success?
    ensures read.Parsed?
    ensures forall i :: 0 <= i < |ConfigDefault| ==> OptionFault(read.ini, DefaultSection, ConfigDefault[i]).None?
    ensures ModuleSection(moduleName).Some? ==>
      var (section, names) := ModuleSection(moduleName).value;
      HasSection(read.ini, section) && forall i :: 0 <= i < |names| ==> OptionFault(read.ini, section, names[i]).None?
  {
  }

  /** The stored names of the options the checks look up after the required ones. */
  lemma OptionKeys()
    ensures Lower("EMAIL_TEMPLATE") == "email_template"
    ensures Lower("CERT_CRT") == "cert_crt" && Lower("CERT_KEY") == "cert_key"
  {
  }

  /** An accepted configuration for a module is what loading its template gave. */
  lemma ConfiguredIsLoaded(read: ReadResult, moduleName: string, files: map<string, string>)
    requires Configure(read, moduleName, files).Success? && ModuleSection(moduleName).Some?
    ensures read.Parsed? && ModuleSection(moduleName).value.0 in read.ini.sections
    ensures LoadTemplate(read.ini, ModuleSection(moduleName).value.0, files) == Configure(read, moduleName, files)
  {
    var (section, names) := ModuleSection(moduleName).value;
    assert Configure(read, moduleName, files) == Validate(read.ini, moduleName, files);
    assert FirstFault(read.ini, section, names).None?;
  }

  /**
   * Loading the template sets the template option to the file's contents,
   * read back through the quote-stripping `get` where `set` wrote it; every
   * other option reads as before.
   */
  lemma LoadTemplateGets(ini: Ini, section: string, files: map<string, string>, otherSection: string, option: string)
    requires LoadTemplate(ini, section, files).Success?
    requires Lower(option) != "email_template" || (SetTarget(section) != DefaultSection && otherSection != section)
    ensures exists path :: Get(ini, section, "EMAIL_TEMPLATE") == Success(path) && path in files &&
                           Get(LoadTemplate(ini, section, files).value, SetTarget(section), "EMAIL_TEMPLATE") == Success(StripQuotes(files[path]))
    ensures Get(LoadTemplate(ini, section, files).value, otherSection, option) == Get(ini, otherSection, option)
  {
    var loaded := LoadTemplate(ini, section, files).value;
    var path :| Get(ini, section, "EMAIL_TEMPLATE") == Success(path) && path in files &&
                SetIn(ini, section, "EMAIL_TEMPLATE", files[path]) == Success(loaded);
    GetAfterSet(ini, section, "EMAIL_TEMPLATE", files[path], otherSection, option);
    OptionKeys();
  }

  /**
   * After a successful check the module's template option holds the
   * contents of the file it named, read back through the quote-stripping
   * `get`; every other option, in DEFAULT or any section, reads as in the file.
   */
  lemma TemplateReplaced(read: ReadResult, moduleName: string, files: map<string, string>, section: string, option: string)
    requires Configure(read, moduleName, files).Success? && ModuleSection(moduleName).Some?
    requires section != ModuleSection(moduleName).value.0 || Lower(option) != "email_template"
    ensures read.Parsed? && ModuleSection(moduleName).value.0 in read.ini.sections
    ensures exists path :: Get(read.ini, ModuleSection(moduleName).value.0, "EMAIL_TEMPLATE") == Success(path) && path in files &&
                           Get(Configure(read, moduleName, files).value, ModuleSection(moduleName).value.0, "EMAIL_TEMPLATE") == Success(StripQuotes(files[path]))
    ensures Get(Configure(read, moduleName, files).value, section, option) == Get(read.ini, section, option)
  {
    ConfiguredIsLoaded(read, moduleName, files);
    var m := ModuleSection(moduleName).value.0;
    assert SetTarget(m) == m;
    LoadTemplateGets(read.ini, m, files, section, option);
  }

  /** An accepted server configuration passed the certificate check. */
  lemma ServerCertificatesChecked(read: ReadResult, files: map<string, string>)
    requires Configure(read, "server", files).Success?
    ensures CertificateFault(Configure(read, "server", files).value, files).None?
  {
    ConfiguredIsLoaded(read, "server", files);
    assert Configure(read, "server", files) == Validate(read.ini, "server", files);
  }

  /** An accepted server configuration whose certificate options are both set names two existing files. */
  lemma CertificatesExist(read: ReadResult, files: map<string, string>)
    requires Configure(read, "server", files).Success?
    ensures var ini := Configure(read, "server", files).value;
      Get(ini, "SERVER", "CERT_CRT").Success? && Get(ini, "SERVER", "CERT_CRT").value != "" &&
      Get(ini, "SERVER", "CERT_KEY").Success? && Get(ini, "SERVER", "CERT_KEY").value != "" ==>
        Get(ini, "SERVER", "CERT_CRT").value in files && Get(ini, "SERVER", "CERT_KEY").value in files
  {
    ServerCertificatesChecked(read, files);
  }

  /** Without a CERT_CRT option the certificate check never fails the run. */
  lemma CertificatesOptional(read: ReadResult, files: map<string, string>)
    requires read.Parsed? && RawGet(read.ini, "SERVER", "CERT_CRT") == Failure(NoOptionError("SERVER", "cert_crt"))
    ensures Configure(read, "server", files) != Failure(BadCertificates)
  {
    var ini := read.ini;
    assert Configure(read, "server", files) == Validate(ini, "server", files);
    if !HasSection(ini, "SERVER") {
    } else if FirstFault(ini, DefaultSection, ConfigDefault).Some? {
    } else if FirstFault(ini, "SERVER", ConfigServer).Some? {
    } else if LoadTemplate(ini, "SERVER", files).Success? {
      OptionKeys();
      LoadTemplateGets(ini, "SERVER", files, "SERVER", "CERT_CRT");
    }
  }


  // ---------------------------------------------------------------------
  // the server's TLS context and port

  datatype SslContext = Adhoc | CertPair(crt: string, key: string)

  /** `"adhoc"` unless both certificate options can be read; then the pair, even when the names are empty. */
  function SslContextOf(ini: Ini): (c: SslContext)
    ensures c == Adhoc <==> Get(ini, "SERVER", "CERT_CRT").Failure? || Get(ini, "SERVER", "CERT_KEY").Failure?
    ensures c.CertPair? ==> Success(c.crt) == Get(ini, "SERVER", "CERT_CRT") && Success(c.key) == Get(ini, "SERVER", "CERT_KEY")
  {
    match (Get(ini, "SERVER", "CERT_CRT"), Get(ini, "SERVER", "CERT_KEY"))
    case (Success(crt), Success(key)) => CertPair(crt, key)
    case _ => Adhoc
  }

  /** A certificate pair chosen for an accepted configuration names existing files, unless a name is empty. */
  lemma SslContextFilesExist(read: ReadResult, files: map<string, string>)
    requires Configure(read, "server", files).Success?
    ensures var c := SslContextOf(Configure(read, "server", files).value);
      c.CertPair? && c.crt != "" && c.key != "" ==> c.crt in files && c.key in files
  {
    CertificatesExist(read, files);
  }

  predicate IsDigit(c: char) { '0' <= c <= '9' }

  predicate AllDigits(s: string)
  {
    forall k :: 0 <= k < |s| ==> IsDigit(s[k])
  }

  /** The value of a string of decimal digits. */
  function DigitsValue(s: string): nat
    requires AllDigits(s)
  {
    if s == [] then 0 else DigitsValue(s[..|s| - 1]) * 10 + (s[|s| - 1] - '0') as nat
  }

  /**
   * Python's `int(s)` on a string: surrounding whitespace, an optional
   * sign, then at least one ASCII digit; anything else is a ValueError.
   */
  function ParseInt(s: string): (r: Option<int>)
    ensures Strip(s, Whitespace) == [] ==> r.None?
  {
    var t := Strip(s, Whitespace);
    var signed := |t| > 0 && (t[0] == '+' || t[0] == '-');
    var digits := if signed then t[1..] else t;
    if digits == [] || !AllDigits(digits) then None
    else if signed && t[0] == '-' then Some(-(DigitsValue(digits) as int))
    else Some(DigitsValue(digits))
  }

  /** `str(n)` for a natural number. */
  function Decimal(n: nat): (s: string)
    ensures |s| >= 1 && AllDigits(s)
  {
    if n < 10 then ['0' + n as char] else Decimal(n / 10) + ['0' + (n % 10) as char]
  }

  lemma {:induction false} DecimalValue(n: nat)
    ensures DigitsValue(Decimal(n)) == n
  {
    if n >= 10 {
      DecimalValue(n / 10);
      var s := Decimal(n);
      assert s[..|s| - 1] == Decimal(n / 10);
    }
  }

  /** The port is `int(get("SERVER", "PORT"))`; a value that is not an integer is fatal. */
  function PortOf(ini: Ini): (r: Result<int, Fatal>)
    ensures r.Success? <==> Get(ini, "SERVER", "PORT").Success? && ParseInt(Get(ini, "SERVER", "PORT").value).Some?
    ensures r.Success? ==> Some(r.value) == ParseInt(Get(ini, "SERVER", "PORT").value)
    ensures Get(ini, "SERVER", "PORT").Success? && ParseInt(Get(ini, "SERVER", "PORT").value).None? ==> r == Failure(BadPort)
  {
    match Get(ini, "SERVER", "PORT")
    case Failure(e) => Failure(LookupFailed(e))
    case Success(p) =>
      match ParseInt(p)
      case Some(n) => Success(n)
      case None => Failure(BadPort)
  }

  /** Every decimal numeral parses back to its number. */
  lemma ParseIntDecimal(n: nat)
    ensures ParseInt(Decimal(n)) == Some(n)
  {
    var s := Decimal(n);
    DecimalValue(n);
    PrintableIsNotWhitespace(s[0]);
    PrintableIsNotWhitespace(s[|s| - 1]);
    StripUnchanged(s, Whitespace);
    assert Strip(s, Whitespace) == s;
  }

  /** A minus sign before a decimal numeral gives the negated number. */
  lemma ParseIntNegative(n: nat)
    ensures ParseInt("-" + Decimal(n)) == Some(-(n as int))
  {
    var s := Decimal(n);
    var m := "-" + s;
    DecimalValue(n);
    PrintableIsNotWhitespace(m[0]);
    PrintableIsNotWhitespace(m[|m| - 1]);
    StripUnchanged(m, Whitespace);
    assert Strip(m, Whitespace) == m;
    assert m[1..] == s;
  }

  /** A port written in quotes still parses, since `get` strips them first. */
  lemma QuotedPortParses(n: nat)
    ensures ParseInt(StripQuotes(['"'] + Decimal(n) + ['"'])) == Some(n)
  {
    var s := Decimal(n);
    assert s[0] !in Quotes && s[|s| - 1] !in Quotes;
    StripQuotesQuoted(s);
    ParseIntDecimal(n);
  }
}
