/**
 * The handful of Python string operations the core relies on, with the
 * semantics of CPython's `str` methods for the arguments the core passes:
 * `strip(chars)`, `split(sep)` with a one-character separator,
 * `sep.join(parts)` and `replace(old, new)`.
 */
module Strings {

  datatype Option<+T> = None | Some(value: T)

  datatype Result<+R, +E> = Success(value: R) | Failure(error: E)

  /** `s[i..i+|pat|] == pat`: an occurrence of `pat` starts at index `i`. */
  predicate OccursAt(s: string, pat: string, i: nat)
  {
    i + |pat| <= |s| && s[i..i + |pat|] == pat
  }

  /** Python's `pat in s`. */
  predicate Contains(s: string, pat: string)
  {
    exists i: nat | i <= |s| :: OccursAt(s, pat, i)
  }

  // ---------------------------------------------------------------------
  // strip

  /** Python's `s.lstrip(chars)`: drops every leading character in `chars`. */
  function LStrip(s: string, chars: set<char>): (r: string)
    ensures |r| <= |s|
  {
    if |s| > 0 && s[0] in chars then LStrip(s[1..], chars) else s
  }

  /** What `lstrip` leaves is a suffix that does not start with a character of `chars`; all it drops is in `chars`. */
  lemma {:induction false} LStripCuts(s: string, chars: set<char>)
    ensures var r := LStrip(s, chars);
      && r == s[|s| - |r|..]
      && (r == [] || r[0] !in chars)
      && forall k :: 0 <= k < |s| - |r| ==> s[k] in chars
  {
    if |s| > 0 && s[0] in chars {
      LStripCuts(s[1..], chars);
      var r := LStrip(s, chars);
      assert s[1..][|s| - 1 - |r|..] == s[|s| - |r|..];
      forall k | 0 <= k < |s| - |r|
        ensures s[k] in chars
      {
        if k > 0 {
          assert s[k] == s[1..][k - 1];
        }
      }
    }
  }

  /** Python's `s.rstrip(chars)`: drops every trailing character in `chars`. */
  function RStrip(s: string, chars: set<char>): (r: string)
    ensures |r| <= |s|
  {
    if |s| > 0 && s[|s| - 1] in chars then RStrip(s[..|s| - 1], chars) else s
  }

  /** What `rstrip` leaves is a prefix that does not end with a character of `chars`; all it drops is in `chars`. */
  lemma {:induction false} RStripCuts(s: string, chars: set<char>)
    ensures var r := RStrip(s, chars);
      && r == s[..|r|]
      && (r == [] || r[|r| - 1] !in chars)
      && forall k :: |r| <= k < |s| ==> s[k] in chars
  {
    if |s| > 0 && s[|s| - 1] in chars {
      var t := s[..|s| - 1];
      RStripCuts(t, chars);
      var r := RStrip(s, chars);
      assert t[..|r|] == s[..|r|];
      forall k | |r| <= k < |s|
        ensures s[k] in chars
      {
        if k < |s| - 1 {
          assert s[k] == t[k];
        }
      }
    }
  }

  /** `r` is the part of `s` from index `i` on, and only characters of `chars` were cut off around it. */
  predicate StrippedAt(s: string, chars: set<char>, i: int, r: string)
  {
    && 0 <= i <= |s| - |r|
    && r == s[i..i + |r|]
    && (forall k :: 0 <= k < i ==> s[k] in chars)
    && (forall k :: i + |r| <= k < |s| ==> s[k] in chars)
  }

  /**
   * Python's `s.strip(chars)`: the longest middle part of `s` that neither
   * starts nor ends with a character of `chars`; everything cut off on
   * either side consists of characters of `chars` (`StripOffset`).
   */
  function Strip(s: string, chars: set<char>): (r: string)
    ensures |r| <= |s|
    ensures r == [] || (r[0] !in chars && r[|r| - 1] !in chars)
  {
    var l := LStrip(s, chars);
    var r := RStrip(l, chars);
    StripParts(s, chars, l, r);
    r
  }

  lemma StripParts(s: string, chars: set<char>, l: string, r: string)
    requires l == LStrip(s, chars) && r == RStrip(l, chars)
    ensures r == [] || (r[0] !in chars && r[|r| - 1] !in chars)
    ensures StrippedAt(s, chars, |s| - |l|, r)
  {
    LStripCuts(s, chars);
    RStripCuts(l, chars);
    StripMiddle(s, chars, l, r);
    StripRightCut(s, chars, l, r);
    if r != [] {
      assert r[0] == l[0];
    }
  }

  lemma StripMiddle(s: string, chars: set<char>, l: string, r: string)
    requires l == LStrip(s, chars) && r == RStrip(l, chars)
    ensures r == s[|s| - |l|..|s| - |l| + |r|]
  {
    LStripCuts(s, chars);
    RStripCuts(l, chars);
    assert l == s[|s| - |l|..];
    assert r == l[..|r|];
  }

  lemma StripRightCut(s: string, chars: set<char>, l: string, r: string)
    requires |l| <= |s| && l == s[|s| - |l|..]
    requires |r| <= |l| && forall k :: |r| <= k < |l| ==> l[k] in chars
    ensures forall k :: |s| - |l| + |r| <= k < |s| ==> s[k] in chars
  {
    var i := |s| - |l|;
    assert l == s[i..];
    forall k | i + |r| <= k < |s|
      ensures s[k] in chars
    {
      var j := k - i;
      assert |r| <= j < |l|;
      assert l[j] in chars;
      assert l[j] == s[k];
    }
  }

  /** Where the stripped part starts. */
  lemma StripOffset(s: string, chars: set<char>) returns (i: int)
    ensures StrippedAt(s, chars, i, Strip(s, chars))
  {
    var l := LStrip(s, chars);
    StripParts(s, chars, l, RStrip(l, chars));
    i := |s| - |l|;
  }

  /** When `s` neither starts nor ends with a character of `chars`, stripping changes nothing. */
  lemma StripUnchanged(s: string, chars: set<char>)
    requires s == [] || (s[0] !in chars && s[|s| - 1] !in chars)
    ensures Strip(s, chars) == s
  {
  }

  /** Stripping a string made only of characters of `chars` leaves nothing. */
  lemma StripAllGone(s: string, chars: set<char>)
    requires forall k :: 0 <= k < |s| ==> s[k] in chars
    ensures Strip(s, chars) == []
  {
    LStripAll(s, chars);
  }

  lemma {:induction false} LStripAll(s: string, chars: set<char>)
    requires forall k :: 0 <= k < |s| ==> s[k] in chars
    ensures LStrip(s, chars) == []
  {
    if s != [] {
      assert forall k :: 0 <= k < |s| - 1 ==> s[1..][k] == s[k + 1];
      LStripAll(s[1..], chars);
    }
  }

  /** Two strips in a row cut off only characters of either set, and leave a contiguous part of the string. */
  lemma StrippedAtTwice(s: string, a: set<char>, i: int, m: string, b: set<char>, j: int, r: string)
    requires StrippedAt(s, a, i, m) && StrippedAt(m, b, j, r)
    ensures StrippedAt(s, a + b, i + j, r)
  {
    assert r == s[i + j..i + j + |r|] by {
      assert m == s[i..i + |m|];
      assert r == m[j..j + |r|];
      assert |r| == |s[i + j..i + j + |r|]|;
      forall k | 0 <= k < |r|
        ensures r[k] == s[i + j + k]
      {
        assert r[k] == m[j + k];
      }
    }
    forall k | 0 <= k < i + j
      ensures s[k] in a + b
    {
      if k >= i {
        assert s[k] == m[k - i];
      }
    }
    forall k | i + j + |r| <= k < |s|
      ensures s[k] in a + b
    {
      if k < i + |m| {
        assert s[k] == m[k - i];
      }
    }
  }

  /** Appending a character of `chars` to `s` changes what `lstrip` leaves only by that character, unless nothing is left. */
  lemma {:induction false} LStripSnoc(s: string, c: char, chars: set<char>)
    requires c in chars
    ensures LStrip(s + [c], chars) == if LStrip(s, chars) == [] then [] else LStrip(s, chars) + [c]
  {
    if s != [] {
      assert (s + [c])[0] == s[0];
      assert (s + [c])[1..] == s[1..] + [c];
      if s[0] in chars {
        LStripSnoc(s[1..], c, chars);
      }
    } else {
      assert [] + [c] == [c];
      assert [c][1..] == [];
    }
  }

  /** A character of `chars` added at either end of `s` makes no difference to `strip`. */
  lemma StripAbsorbs(s: string, c: char, chars: set<char>)
    requires c in chars
    ensures Strip([c] + s, chars) == Strip(s, chars)
    ensures Strip(s + [c], chars) == Strip(s, chars)
  {
    assert ([c] + s)[1..] == s;
    LStripSnoc(s, c, chars);
    var l := LStrip(s, chars);
    if l != [] {
      assert (l + [c])[..|l + [c]| - 1] == l;
    }
  }

  /** The characters `str.strip()` with no argument removes: those for which Python's `str.isspace()` holds. */
  const Whitespace: set<char> := {
    '\t', '\n', '\U{0B}', '\U{0C}', '\r', '\U{1C}', '\U{1D}', '\U{1E}', '\U{1F}', ' ', '\U{85}', '\U{A0}',
    '\U{1680}', '\U{2000}', '\U{2001}', '\U{2002}', '\U{2003}', '\U{2004}', '\U{2005}', '\U{2006}',
    '\U{2007}', '\U{2008}', '\U{2009}', '\U{200A}', '\U{2028}', '\U{2029}', '\U{202F}', '\U{205F}', '\U{3000}'
  }

  /** Visible ASCII characters are not whitespace. */
  lemma PrintableIsNotWhitespace(c: char)
    requires '!' <= c <= '~'
    ensures c !in Whitespace
  {
  }

  // ---------------------------------------------------------------------
  // split and join

  /** Python's `s.split(sep)` for a one-character separator. */
  function Split(s: string, sep: char): (r: seq<string>)
    ensures |r| >= 1
    ensures forall i :: 0 <= i < |r| ==> sep !in r[i]
  {
    if s == [] then [""]
    else
      var rest := Split(s[1..], sep);
      if s[0] == sep then [""] + rest
      else [[s[0]] + rest[0]] + rest[1..]
  }

  /** Python's `sep.join(parts)`. */
  function Join(parts: seq<string>, sep: string): string
  {
    if |parts| == 0 then ""
    else if |parts| == 1 then parts[0]
    else parts[0] + sep + Join(parts[1..], sep)
  }

  /** Number of occurrences of `c` in `s`. */
  function CountChar(s: string, c: char): nat
  {
    if s == [] then 0 else (if s[0] == c then 1 else 0) + CountChar(s[1..], c)
  }

  lemma {:induction false} CountCharAppend(a: string, b: string, c: char)
    ensures CountChar(a + b, c) == CountChar(a, c) + CountChar(b, c)
  {
    if a == [] {
      assert a + b == b;
    } else {
      assert (a + b)[1..] == a[1..] + b;
      CountCharAppend(a[1..], b, c);
    }
  }

  lemma {:induction false} CountCharAbsent(s: string, c: char)
    ensures CountChar(s, c) == 0 <==> c !in s
  {
    if s != [] {
      CountCharAbsent(s[1..], c);
      assert s == [s[0]] + s[1..];
    }
  }

  /** `split` yields one more piece than there are separators. */
  lemma {:induction false} SplitLength(s: string, sep: char)
    ensures |Split(s, sep)| == CountChar(s, sep) + 1
  {
    if s != [] {
      SplitLength(s[1..], sep);
    }
  }

  /** Joining the pieces of a split with the same separator gives back the string. */
  lemma {:induction false} JoinSplit(s: string, sep: char)
    ensures Join(Split(s, sep), [sep]) == s
  {
    if s != [] {
      var rest := Split(s[1..], sep);
      JoinSplit(s[1..], sep);
      if s[0] == sep {
        assert Split(s, sep) == [""] + rest;
        assert Join([""] + rest, [sep]) == [sep] + Join(rest, [sep]);
      } else {
        assert Split(s, sep) == [[s[0]] + rest[0]] + rest[1..];
        if |rest| == 1 {
          assert Join(rest, [sep]) == rest[0];
        } else {
          assert Join(rest, [sep]) == rest[0] + [sep] + Join(rest[1..], [sep]);
          assert ([[s[0]] + rest[0]] + rest[1..])[1..] == rest[1..];
        }
        assert s == [s[0]] + s[1..];
      }
    }
  }

  /** Splitting a join of separator-free pieces gives back the pieces. */
  lemma {:induction false} SplitJoin(parts: seq<string>, sep: char)
    requires |parts| >= 1
    requires forall i :: 0 <= i < |parts| ==> sep !in parts[i]
    ensures Split(Join(parts, [sep]), sep) == parts
  {
    if |parts| == 1 {
      SplitNoSep(parts[0], sep);
    } else {
      SplitJoin(parts[1..], sep);
      SplitNoSep(parts[0], sep);
      assert Join(parts, [sep]) == parts[0] + ([sep] + Join(parts[1..], [sep]));
      SplitAppend(parts[0], Join(parts[1..], [sep]), sep);
      assert parts == [parts[0]] + parts[1..];
    }
  }

  /** A string without the separator splits into itself. */
  lemma {:induction false} SplitNoSep(s: string, sep: char)
    requires sep !in s
    ensures Split(s, sep) == [s]
  {
    if s != [] {
      SplitNoSep(s[1..], sep);
      assert s == [s[0]] + s[1..];
    }
  }

  /** `(a + sep + b).split(sep) == a.split(sep) + b.split(sep)`. */
  lemma {:induction false} SplitAppend(a: string, b: string, sep: char)
    ensures Split(a + [sep] + b, sep) == Split(a, sep) + Split(b, sep)
  {
    if a == [] {
      assert ([sep] + b)[1..] == b;
    } else {
      assert (a + [sep] + b)[1..] == a[1..] + [sep] + b;
      SplitAppend(a[1..], b, sep);
    }
  }

  /** Python's `s.split(sep)[-1]`: the part after the last separator. */
  function LastPiece(s: string, sep: char): (r: string)
    ensures sep !in r
  {
    var parts := Split(s, sep);
    parts[|parts| - 1]
  }

  /** The last piece of `dir + sep + name` is `name` when `name` holds no separator. */
  lemma LastPieceOfPath(dir: string, name: string, sep: char)
    requires sep !in name
    ensures LastPiece(dir + [sep] + name, sep) == name
  {
    SplitAppend(dir, name, sep);
    SplitNoSep(name, sep);
  }

  // ---------------------------------------------------------------------
  // replace

  /**
   * Python's `s.replace(pat, rep)` for a non-empty `pat`: scanning from the
   * left, every non-overlapping occurrence is replaced.
   */
  function ReplaceAll(s: string, pat: string, rep: string): string
    requires |pat| > 0
    decreases |s|
  {
    if |s| < |pat| then s
    else if s[..|pat|] == pat then rep + ReplaceAll(s[|pat|..], pat, rep)
    else [s[0]] + ReplaceAll(s[1..], pat, rep)
  }

  /** Replacing leaves a prefix alone when no occurrence starts inside it. */
  lemma {:induction false} ReplaceAllSkipsPrefix(x: string, y: string, pat: string, rep: string)
    requires |pat| > 0
    requires forall p: nat :: p < |x| ==> !OccursAt(x + y, pat, p)
    ensures ReplaceAll(x + y, pat, rep) == x + ReplaceAll(y, pat, rep)
  {
    if x == [] {
      assert x + y == y;
    } else {
      var s := x + y;
      var x' := x[1..];
      assert s[1..] == x' + y;
      NoOccurrenceShifts(x, y, pat);
      ReplaceAllSkipsPrefix(x', y, pat, rep);
      assert !OccursAt(s, pat, 0);
      if |s| >= |pat| {
        assert s[..|pat|] == s[0..0 + |pat|];
      }
      assert ReplaceAll(s, pat, rep) == [s[0]] + ReplaceAll(x' + y, pat, rep);
      assert x == [x[0]] + x';
    }
  }

  lemma NoOccurrenceShifts(x: string, y: string, pat: string)
    requires x != []
    requires forall p: nat :: p < |x| ==> !OccursAt(x + y, pat, p)
    ensures forall p: nat :: p < |x| - 1 ==> !OccursAt(x[1..] + y, pat, p)
  {
    var s := x + y;
    var t := x[1..] + y;
    assert t == s[1..];
    forall p: nat | p < |x| - 1
      ensures !OccursAt(t, pat, p)
    {
      assert !OccursAt(s, pat, p + 1);
      if p + |pat| <= |t| {
        assert t[p..p + |pat|] == s[p + 1..p + 1 + |pat|];
      }
    }
  }

  /** A character that cannot start an occurrence is kept as it is. */
  lemma ReplaceAllSkipsChar(c: char, s: string, pat: string, rep: string)
    requires |pat| > 0 && pat[0] != c
    ensures ReplaceAll([c] + s, pat, rep) == [c] + ReplaceAll(s, pat, rep)
  {
    var t := [c] + s;
    assert t[1..] == s;
    if |t| >= |pat| {
      assert t[..|pat|][0] == c;
    }
  }

  /** An occurrence at the start is replaced and the rest is processed after it. */
  lemma ReplaceAllAtStart(pat: string, s: string, rep: string)
    requires |pat| > 0
    ensures ReplaceAll(pat + s, pat, rep) == rep + ReplaceAll(s, pat, rep)
  {
    var t := pat + s;
    assert t[..|pat|] == pat;
    assert t[|pat|..] == s;
  }

  lemma ReplaceAllWhole(pat: string, rep: string)
    requires |pat| > 0
    ensures ReplaceAll(pat, pat, rep) == rep
  {
    assert pat[..|pat|] == pat;
    assert pat[|pat|..] == [];
  }
}
