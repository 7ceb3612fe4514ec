/**
 * The configuration parser: Python's `RawConfigParser` as far as the
 * program uses it (option lookup with the DEFAULT fallback and `set`),
 * with a `get` that strips surrounding quotes from every value.
 *
 * The parsed file is a value: the DEFAULT options and a map from section
 * name to options. Option names are stored lower-cased, as the parser's
 * `optionxform` leaves them.
 */
module ConfigParser {
  import opened Strings

  const DefaultSection := "DEFAULT"

  /** The parsed contents of a configuration file. */
  datatype Ini = Ini(defaults: map<string, string>, sections: map<string, map<string, string>>)

  /** `NoSectionError` and `NoOptionError`. */
  datatype ConfigError = NoSectionError(section: string) | NoOptionError(section: string, option: string)

  /** ASCII lower-casing of one character. */
  function LowerChar(c: char): char
  {
    if 'A' <= c <= 'Z' then c - 'A' + 'a' else c
  }

  /** ASCII lower-casing: `optionxform` applied to the option names the program uses. */
  function Lower(s: string): (r: string)
    ensures |r| == |s|
  {
    seq(|s|, k requires 0 <= k < |s| => LowerChar(s[k]))
  }

  lemma LowerIdempotent(s: string)
    ensures Lower(Lower(s)) == Lower(s)
  {
    assert forall k :: 0 <= k < |s| ==> Lower(Lower(s))[k] == Lower(s)[k];
  }

  /**
   * `RawConfigParser.get`: the section's own option, else the DEFAULT one.
   * DEFAULT itself is always there; any other section must exist.
   */
  function RawGet(ini: Ini, section: string, option: string): Result<string, ConfigError>
  {
    var key := Lower(option);
    if section == DefaultSection then
      if key in ini.defaults then Success(ini.defaults[key]) else Failure(NoOptionError(section, key))
    else if section !in ini.sections then Failure(NoSectionError(section))
    else if key in ini.sections[section] then Success(ini.sections[section][key])
    else if key in ini.defaults then Success(ini.defaults[key])
    else Failure(NoOptionError(section, key))
  }

  /**
   * What a lookup finds: a missing section other than DEFAULT is an error;
   * otherwise the section's own value wins over DEFAULT's, and only an
   * option in neither is missing.
   */
  lemma RawGetLookup(ini: Ini, section: string, option: string)
    ensures section != DefaultSection && section !in ini.sections <==> RawGet(ini, section, option) == Failure(NoSectionError(section))
    ensures section != DefaultSection && section in ini.sections && Lower(option) in ini.sections[section] ==>
      RawGet(ini, section, option) == Success(ini.sections[section][Lower(option)])
    ensures (section == DefaultSection || (section in ini.sections && Lower(option) !in ini.sections[section])) ==>
      RawGet(ini, section, option) == if Lower(option) in ini.defaults then Success(ini.defaults[Lower(option)])
                                      else Failure(NoOptionError(section, Lower(option)))
  {
  }

  const Quotes: set<char> := {'"', '\''}

  /** `val.strip('"').strip("'")`: surrounding double quotes first, then surrounding single quotes. */
  function StripQuotes(raw: string): (r: string)
    ensures r == [] || (r[0] != '\'' && r[|r| - 1] != '\'')
  {
    Strip(Strip(raw, {'"'}), {'\''})
  }

  /** What `get` returns is a contiguous part of the raw value, with only quote characters cut off around it. */
  lemma StripQuotesInfix(raw: string)
    ensures exists i :: StrippedAt(raw, Quotes, i, StripQuotes(raw))
  {
    var m := Strip(raw, {'"'});
    var r := Strip(m, {'\''});
    assert r == StripQuotes(raw);
    var i := StripOffset(raw, {'"'});
    var j := StripOffset(m, {'\''});
    StrippedAtTwice(raw, {'"'}, i, m, {'\''}, j, r);
    assert {'"'} + {'\''} == Quotes;
    assert StrippedAt(raw, {'"'} + {'\''}, i + j, r);
    assert StrippedAt(raw, Quotes, i + j, r);
  }

  /** `CustomConfigParser.get`: the raw value with its quotes stripped; errors pass through. */
  function Get(ini: Ini, section: string, option: string): Result<string, ConfigError>
  {
    match RawGet(ini, section, option)
    case Success(v) => Success(StripQuotes(v))
    case Failure(e) => Failure(e)
  }

  /** Where `set` writes: an empty section name means DEFAULT, as DEFAULT itself does. */
  function SetTarget(section: string): string
  {
    if section == "" then DefaultSection else section
  }

  /**
   * `RawConfigParser.set`: an empty name or DEFAULT sets a DEFAULT option,
   * an existing section gets its own option, and any other section is an
   * error.
   */
  function SetIn(ini: Ini, section: string, option: string, value: string): (r: Result<Ini, ConfigError>)
    ensures r.Failure? <==> SetTarget(section) != DefaultSection && section !in ini.sections
    ensures r.Failure? ==> r.error == NoSectionError(section)
    ensures r.Success? && SetTarget(section) == DefaultSection ==>
      r.value == ini.(defaults := ini.defaults[Lower(option) := value])
    ensures r.Success? && SetTarget(section) != DefaultSection ==>
      r.value == ini.(sections := ini.sections[section := ini.sections[section][Lower(option) := value]])
  {
    if section == "" || section == DefaultSection then Success(ini.(defaults := ini.defaults[Lower(option) := value]))
    else if section !in ini.sections then Failure(NoSectionError(section))
    else Success(ini.(sections := ini.sections[section := ini.sections[section][Lower(option) := value]]))
  }

  /** The parser object: the contents it has read, updated in place by `set`. */
  class CustomConfigParser {
    var ini: Ini

    constructor (ini: Ini)
      ensures this.ini == ini
    {
      this.ini := ini;
    }

    /** `config.sections()`: the sections other than DEFAULT. */
    predicate HasSection(section: string)
      reads this
    {
      section != DefaultSection && section in ini.sections
    }

    method Set(section: string, option: string, value: string) returns (err: Option<ConfigError>)
      modifies this
      ensures SetIn(old(ini), section, option, value).Success? ==> err.None? && ini == SetIn(old(ini), section, option, value).value
      ensures SetIn(old(ini), section, option, value).Failure? ==> err == Some(NoSectionError(section)) && ini == old(ini)
    {
      match SetIn(ini, section, option, value)
      case Success(updated) =>
        ini := updated;
        err := None;
      case Failure(e) =>
        err := Some(e);
    }
  }

  /**
   * After `set`, `get` reads the new value back from where it was written,
   * quote-stripped; every other option reads as before.
   */
  lemma GetAfterSet(ini: Ini, section: string, option: string, value: string, otherSection: string, otherOption: string)
    requires SetIn(ini, section, option, value).Success?
    requires Lower(otherOption) != Lower(option) || (SetTarget(section) != DefaultSection && otherSection != section)
    ensures Get(SetIn(ini, section, option, value).value, SetTarget(section), option) == Success(StripQuotes(value))
    ensures Get(SetIn(ini, section, option, value).value, otherSection, otherOption) == Get(ini, otherSection, otherOption)
  {
    RawGetAfterSet(ini, section, option, value);
    RawGetOthersAfterSet(ini, section, option, value, otherSection, otherOption);
  }

  lemma RawGetAfterSet(ini: Ini, section: string, option: string, value: string)
    requires SetIn(ini, section, option, value).Success?
    ensures RawGet(SetIn(ini, section, option, value).value, SetTarget(section), option) == Success(value)
  {
  }

  lemma RawGetOthersAfterSet(ini: Ini, section: string, option: string, value: string, otherSection: string, otherOption: string)
    requires SetIn(ini, section, option, value).Success?
    requires Lower(otherOption) != Lower(option) || (SetTarget(section) != DefaultSection && otherSection != section)
    ensures RawGet(SetIn(ini, section, option, value).value, otherSection, otherOption) == RawGet(ini, otherSection, otherOption)
  {
  }

  /**
   * `set` with an empty section name writes DEFAULT, but `get` does not
   * read DEFAULT for an empty name: unless a section is literally named
   * "", the value cannot be read back that way.
   */
  lemma EmptySectionSetsDefault(ini: Ini, option: string, value: string)
    requires "" !in ini.sections
    ensures SetIn(ini, "", option, value) == SetIn(ini, DefaultSection, option, value)
    ensures RawGet(SetIn(ini, "", option, value).value, "", option) == Failure(NoSectionError(""))
  {
  }

  /** Option names are looked up case-insensitively. */
  lemma GetIgnoresCase(ini: Ini, section: string, option: string)
    ensures Get(ini, section, Lower(option)) == Get(ini, section, option)
  {
    RawGetIgnoresCase(ini, section, option);
  }

  lemma RawGetIgnoresCase(ini: Ini, section: string, option: string)
    ensures RawGet(ini, section, Lower(option)) == RawGet(ini, section, option)
  {
    LowerIdempotent(option);
  }

  /** A value with no quote at either end comes back unchanged. */
  lemma StripQuotesUnquoted(raw: string)
    requires raw == [] || (raw[0] !in Quotes && raw[|raw| - 1] !in Quotes)
    ensures StripQuotes(raw) == raw
  {
    StripUnchanged(raw, {'"'});
    StripUnchanged(raw, {'\''});
  }

  /**
   * A value made only of quote characters comes back empty unless it has a
   * double quote inside its single quotes: `'"'` comes back as `"`.
   */
  lemma StripQuotesAllQuotes(raw: string)
    requires forall k :: 0 <= k < |raw| ==> raw[k] in Quotes
    ensures StripQuotes(raw) == [] || (StripQuotes(raw)[0] == '"' && StripQuotes(raw)[|StripQuotes(raw)| - 1] == '"')
    ensures '"' !in raw ==> StripQuotes(raw) == []
  {
    var r := StripQuotes(raw);
    StripQuotesInfix(raw);
    var i :| StrippedAt(raw, Quotes, i, r);
    if r != [] {
      assert r[0] == raw[i] && r[|r| - 1] == raw[i + |r| - 1];
    }
  }

  /** Surrounding double quotes, or surrounding single quotes, are removed from a value that has no quote at its ends. */
  lemma StripQuotesQuoted(x: string)
    requires x == [] || (x[0] !in Quotes && x[|x| - 1] !in Quotes)
    ensures StripQuotes(['"'] + x + ['"']) == x
    ensures StripQuotes(['\''] + x + ['\'']) == x
  {
    calc {
      StripQuotes(['"'] + x + ['"']);
      Strip(Strip(['"'] + x + ['"'], {'"'}), {'\''});
      { StripSurroundingQuote(x, '"'); }
      Strip(x, {'\''});
      { StripUnchanged(x, {'\''}); }
      x;
    }
    var s := ['\''] + x + ['\''];
    calc {
      StripQuotes(s);
      Strip(Strip(s, {'"'}), {'\''});
      { StripUnchanged(s, {'"'}); }
      Strip(s, {'\''});
      { StripSurroundingQuote(x, '\''); }
      x;
    }
  }

  lemma StripSurroundingQuote(x: string, q: char)
    requires x == [] || (x[0] != q && x[|x| - 1] != q)
    ensures Strip([q] + x + [q], {q}) == x
  {
    var t := x + [q];
    assert [q] + x + [q] == [q] + t;
    calc {
      Strip([q] + t, {q});
      { StripAbsorbs(t, q, {q}); }
      Strip(t, {q});
      { StripAbsorbs(x, q, {q}); }
      Strip(x, {q});
      { StripUnchanged(x, {q}); }
      x;
    }
  }

  /**
   * Double quotes are stripped before single quotes, so a double-quoted
   * value inside single quotes keeps its double quotes, and a second `get`
   * would remove them: the stripping is not idempotent.
   */
  lemma StripQuotesOrder(x: string)
    requires x == [] || (x[0] !in Quotes && x[|x| - 1] !in Quotes)
    ensures StripQuotes(['\''] + (['"'] + x + ['"']) + ['\'']) == ['"'] + x + ['"']
    ensures StripQuotes(StripQuotes(['\''] + (['"'] + x + ['"']) + ['\''])) == x
  {
    var inner := ['"'] + x + ['"'];
    var s := ['\''] + inner + ['\''];
    calc {
      StripQuotes(s);
      Strip(Strip(s, {'"'}), {'\''});
      { StripUnchanged(s, {'"'}); }
      Strip(s, {'\''});
      { StripSurroundingQuote(inner, '\''); }
      inner;
    }
    StripQuotesQuoted(x);
  }

  /** A single double quote between single quotes survives as `"`, a value the required-option check accepts. */
  lemma LoneDoubleQuoteSurvives()
    ensures StripQuotes(['\'', '"', '\'']) == ['"']
  {
    var q := ['\'', '"', '\''];
    StripUnchanged(q, {'"'});
    assert q == ['\''] + ['"'] + ['\''];
    StripSurroundingQuote(['"'], '\'');
  }
}
