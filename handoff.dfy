/**
 * The hand-off between the two programs: the phishing server saves an
 * approved token as `<email>.tokeninfo.json`, and rephresh reads the address
 * back from that file name.
 */
module Handoff {
  import opened Strings
  import Server
  import Auth
  import Rephresh

  /**
   * For an address the server accepted, the name rephresh derives from the
   * saved token file, in any directory, is that address again, provided the
   * address does not itself contain the suffix.
   */
  lemma SavedTokenNamesItsAddress(dir: string, email: string)
    requires Server.ValidEmail(email) && !Contains(email, Auth.TokenFileSuffix)
    ensures Rephresh.TokenEmail(dir + "/" + email + Auth.TokenFileSuffix) == email
  {
    Server.ValidEmailFacts(email);
    Rephresh.TokenEmailOfSavedFile(dir, email);
  }

  /**
   * The proviso is needed: the validator accepts `x.tokeninfo.json@ab.cd`,
   * and rephresh reads its token file as belonging to `x@ab.cd`.
   */
  lemma SuffixInsideAddressIsLost()
    ensures Server.ValidEmail("x.tokeninfo.json@ab.cd")
    ensures Rephresh.TokenEmail("x.tokeninfo.json@ab.cd" + Auth.TokenFileSuffix) == "x@ab.cd"
  {
    InnerSuffixAddressIsValid();
    InnerSuffixIsDropped("x.tokeninfo.json@ab.cd", "@ab.cd");
  }

  lemma InnerSuffixAddressIsValid()
    ensures Server.ValidEmail("x.tokeninfo.json@ab.cd")
  {
    assert Server.EmailShape("x.tokeninfo.json@ab.cd", 16, 19);
  }

  lemma InnerSuffixIsDropped(e: string, rest: string)
    requires e == "x.tokeninfo.json@ab.cd" && rest == "@ab.cd"
    ensures Rephresh.TokenEmail(e + Auth.TokenFileSuffix) == ['x'] + rest
  {
    var t := Rephresh.TokenSuffix;
    ShorterHasNone(rest, t);
    Rephresh.TokenEmailDropsInnerSuffix('x', rest);
    assert e + Auth.TokenFileSuffix == ['x'] + t + rest + t;
  }

  lemma ShorterHasNone(s: string, pat: string)
    requires |s| < |pat|
    ensures !Contains(s, pat)
  {
  }
}
