/**
 * `String.prototype.trim`, applied as the last normalisation step of both
 * the article text and the body text (api/scrape.js:42, 51).
 */
module Trim {
  import opened JsText

  /** Neither starts nor ends with whitespace. */
  predicate Trimmed(s: JsString) {
    s == [] || (!IsWhitespace(s[0]) && !IsWhitespace(s[|s| - 1]))
  }

  /** Drops the leading whitespace. */
  function TrimStart(s: JsString): (r: JsString)
    ensures r == s[LeadingWhitespace(s)..]
    ensures r == [] || !IsWhitespace(r[0])
  {
    if s != [] && IsWhitespace(s[0]) then TrimStart(s[1..]) else s
  }

  /** Drops the trailing whitespace. */
  function TrimEnd(s: JsString): (r: JsString)
    ensures |r| <= |s| && r == s[..|r|]
    ensures AllWhitespace(s[|r|..])
    ensures r == [] || !IsWhitespace(r[|r| - 1])
  {
    if s != [] && IsWhitespace(s[|s| - 1]) then
      var r := TrimEnd(s[..|s| - 1]);
      assert s[|r|..] == s[..|s| - 1][|r|..] + [s[|s| - 1]];
      r
    else s
  }

  /** Slicing after dropping `i` code units is slicing the original further on. */
  lemma DropThenSlice(s: JsString, i: nat, k: nat)
    requires i + k <= |s|
    ensures s[i..][..k] == s[i..i + k] && s[i..][k..] == s[i + k..]
  {
  }

  /**
   * `s.trim()`: the stretch of `s` between its leading and its trailing
   * whitespace, which neither starts nor ends with whitespace.
   */
  function Trim(s: JsString): (r: JsString)
    ensures Trimmed(r)
    ensures LeadingWhitespace(s) + |r| <= |s|
    ensures r == s[LeadingWhitespace(s)..LeadingWhitespace(s) + |r|]
    ensures AllWhitespace(s[LeadingWhitespace(s) + |r|..])
  {
    var t := TrimStart(s);
    var r := TrimEnd(t);
    TrimParts(s, LeadingWhitespace(s), t, r);
    r
  }

  /**
   * What `Trim` ensures, from what its two halves ensure: `t` is `s` from
   * `k` on and starts with no whitespace, `r` is `t` without its trailing
   * whitespace.
   */
  lemma TrimParts(s: JsString, k: nat, t: JsString, r: JsString)
    requires k <= |s| && t == s[k..] && (t == [] || !IsWhitespace(t[0]))
    requires |r| <= |t| && r == t[..|r|] && AllWhitespace(t[|r|..])
    requires r == [] || !IsWhitespace(r[|r| - 1])
    ensures Trimmed(r)
    ensures k + |r| <= |s| && r == s[k..k + |r|]
    ensures AllWhitespace(s[k + |r|..])
  {
    DropThenSlice(s, k, |r|);
    assert r != [] ==> r[0] == t[0];
  }

  /** Text that neither starts nor ends with whitespace is left as it is. */
  lemma TrimFixesTrimmed(s: JsString)
    requires Trimmed(s)
    ensures Trim(s) == s
  {
  }

  lemma TrimIdempotent(s: JsString)
    ensures Trim(Trim(s)) == Trim(s)
  {
    TrimFixesTrimmed(Trim(s));
  }

  lemma SplitAround(s: JsString, i: nat, j: nat)
    requires i <= j <= |s|
    ensures s == s[..i] + (s[i..j] + s[j..])
  {
  }

  /** Trimming removes whitespace only: every other code unit is kept, in order. */
  lemma TrimKeepsVisible(s: JsString)
    ensures Filter(Trim(s), NotWhitespace) == Filter(s, NotWhitespace)
  {
    var i := LeadingWhitespace(s);
    var j := i + |Trim(s)|;
    var front, middle, back := s[..i], s[i..j], s[j..];
    SplitAround(s, i, j);
    FilterConcat(front, middle + back, NotWhitespace);
    FilterConcat(middle, back, NotWhitespace);
    assert Filter(front, NotWhitespace) == [] by {
      FilterNone(front, NotWhitespace);
    }
    assert Filter(back, NotWhitespace) == [] by {
      FilterNone(back, NotWhitespace);
    }
  }

  /** The result is empty exactly when the input is all whitespace. */
  lemma TrimEmptyIff(s: JsString)
    ensures Trim(s) == [] <==> AllWhitespace(s)
  {
    TrimKeepsVisible(s);
    VisibleEmptyIff(s);
    VisibleEmptyIff(Trim(s));
  }
}
