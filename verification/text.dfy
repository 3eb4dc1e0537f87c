/**
 * Python's `str.strip`, with and without an explicit set of characters.
 *
 * `s.strip()` removes leading and trailing characters for which
 * `str.isspace()` holds; `s.strip(chars)` removes leading and trailing
 * characters that occur in `chars`. Both are modelled by `Strip`, which
 * takes the set of characters to remove.
 */
module Text {

  /** The characters for which Python's `str.isspace()` is true. */
  const Whitespace: set<char> := {
    '\t', '\n', '\U{000B}', '\U{000C}', '\r',
    '\U{001C}', '\U{001D}', '\U{001E}', '\U{001F}',
    ' ', '\U{0085}', '\U{00A0}', '\U{1680}',
    '\U{2000}', '\U{2001}', '\U{2002}', '\U{2003}', '\U{2004}', '\U{2005}',
    '\U{2006}', '\U{2007}', '\U{2008}', '\U{2009}', '\U{200A}',
    '\U{2028}', '\U{2029}', '\U{202F}', '\U{205F}', '\U{3000}'
  }

  /** True when every character of `s` belongs to `cs`. */
  predicate AllIn(s: string, cs: set<char>) {
    forall i :: 0 <= i < |s| ==> s[i] in cs
  }

  /** The length of the longest prefix of `s` made of characters in `cs`. */
  function LeadingIn(s: string, cs: set<char>): (n: nat)
    ensures n <= |s|
    ensures forall i :: 0 <= i < n ==> s[i] in cs
    ensures n == |s| || s[n] !in cs
  {
    if s == [] || s[0] !in cs then 0 else 1 + LeadingIn(s[1..], cs)
  }

  /** The length of the longest suffix of `s` made of characters in `cs`. */
  function TrailingIn(s: string, cs: set<char>): (n: nat)
    ensures n <= |s|
    ensures forall i :: |s| - n <= i < |s| ==> s[i] in cs
    ensures n == |s| || s[|s| - 1 - n] !in cs
  {
    if s == [] || s[|s| - 1] !in cs then 0 else 1 + TrailingIn(s[..|s| - 1], cs)
  }

  /**
   * `s.strip(cs)`: `s` without its leading and trailing characters from `cs`.
   * The result is the slice of `s` that starts after the leading run; it is
   * empty exactly when `s` consists of characters of `cs` only, and
   * otherwise neither starts nor ends with a character of `cs`.
   */
  function Strip(s: string, cs: set<char>): (r: string)
    ensures |r| <= |s|
    ensures LeadingIn(s, cs) + |r| <= |s|
    ensures r == s[LeadingIn(s, cs)..LeadingIn(s, cs) + |r|]
    ensures forall i :: LeadingIn(s, cs) + |r| <= i < |s| ==> s[i] in cs
    ensures r == [] <==> AllIn(s, cs)
    ensures r == [] || (r[0] !in cs && r[|r| - 1] !in cs)
  {
    var lo := LeadingIn(s, cs);
    if lo == |s| then []
    else
      var hi := |s| - TrailingIn(s, cs);
      assert s[lo] !in cs;
      s[lo..hi]
  }

  /**
   * `Strip` is the only trimming of `s` that removes characters of `cs`
   * from the two ends and leaves none of them at either end.
   */
  lemma StripIsUniqueTrim(s: string, cs: set<char>, lo: nat, hi: nat)
    requires lo <= hi <= |s|
    requires AllIn(s[..lo], cs) && AllIn(s[hi..], cs)
    requires lo == hi || (s[lo] !in cs && s[hi - 1] !in cs)
    ensures Strip(s, cs) == s[lo..hi]
  {
    forall i | 0 <= i < lo ensures s[i] in cs {
      assert s[..lo][i] == s[i];
    }
    forall i | hi <= i < |s| ensures s[i] in cs {
      assert s[hi..][i - hi] == s[i];
    }
  }

  /** Stripping removes exactly the padding around a piece whose ends are not stripped. */
  lemma StripPadded(pre: string, w: string, post: string, cs: set<char>)
    requires AllIn(pre, cs) && AllIn(post, cs)
    requires w != [] && w[0] !in cs && w[|w| - 1] !in cs
    ensures Strip(pre + w + post, cs) == w
  {
    var s := pre + w + post;
    assert s[|pre|] == w[0] && s[|pre| + |w| - 1] == w[|w| - 1];
    assert s[..|pre|] == pre && s[|pre| + |w|..] == post;
    StripIsUniqueTrim(s, cs, |pre|, |pre| + |w|);
    assert s[|pre|..|pre| + |w|] == w;
  }

  /** Each character of a stripped string sits in the source right after the leading run. */
  lemma StrippedCharFromSource(s: string, cs: set<char>, i: nat)
    requires i < |Strip(s, cs)|
    ensures Strip(s, cs)[i] == s[LeadingIn(s, cs) + i]
  {
    var r, lo := Strip(s, cs), LeadingIn(s, cs);
    assert r == s[lo..lo + |r|];
    assert r[i] == s[lo..lo + |r|][i];
  }

  /** A string is its stripped part with the removed leading and trailing runs around it. */
  lemma StripSplits(s: string, cs: set<char>) returns (pre: string, post: string)
    ensures s == pre + Strip(s, cs) + post
    ensures AllIn(pre, cs) && AllIn(post, cs)
  {
    var t := Strip(s, cs);
    var lo := LeadingIn(s, cs);
    pre, post := s[..lo], s[lo + |t|..];
    forall i | 0 <= i < |pre| ensures pre[i] in cs {
      assert pre[i] == s[i];
    }
    forall i | 0 <= i < |post| ensures post[i] in cs {
      assert post[i] == s[lo + |t| + i];
    }
    assert s == s[..lo] + s[lo..lo + |t|] + s[lo + |t|..];
  }

  /** Regrouping a concatenation of four strings. */
  lemma ConcatRegroup(a: string, b: string, c: string, d: string)
    ensures a + (b + c) + d == a + b + c + d
  {
  }
}
