/**
 * The blank-line collapse `replace(/\n{3,}/g, "\n\n")` that the handler
 * applies to both the article text and the body text (api/scrape.js:41, 50).
 */
module Newlines {
  import opened JsText

  /** Length of the run of line feeds that starts `s`. */
  function LeadingLineFeeds(s: JsString): (n: nat)
    ensures n <= |s|
    ensures forall i :: 0 <= i < n ==> s[i] == LineFeed
    ensures n == |s| || s[n] != LineFeed
  {
    if s != [] && s[0] == LineFeed then 1 + LeadingLineFeeds(s[1..]) else 0
  }

  /** No three consecutive line feeds, i.e. no more than one blank line in a row. */
  predicate NoTripleLineFeed(s: JsString) {
    forall i :: 0 <= i < |s| - 2 ==> !(s[i] == LineFeed && s[i + 1] == LineFeed && s[i + 2] == LineFeed)
  }

  /**
   * `s.replace(/\n{3,}/g, "\n\n")`. The global search tries each position
   * from left to right: where three or more line feeds start, the greedy
   * quantifier takes the whole run and it becomes two line feeds, and the
   * search resumes after the run; elsewhere one code unit is copied.
   */
  function CollapseNewlines(s: JsString): (r: JsString)
    ensures |r| <= |s|
    decreases |s|
  {
    if s == [] then []
    else
      var n := LeadingLineFeeds(s);
      if n >= 3 then [LineFeed, LineFeed] + CollapseNewlines(s[n..])
      else [s[0]] + CollapseNewlines(s[1..])
  }

  lemma LeadingLineFeedsCons(c: CodeUnit, s: JsString)
    ensures LeadingLineFeeds([c] + s) == if c == LineFeed then 1 + LeadingLineFeeds(s) else 0
  {
    assert ([c] + s)[1..] == s;
  }

  /** A run of n line feeds comes out as min(n, 2) line feeds. */
  lemma {:induction false} CollapseLeadingLineFeeds(s: JsString)
    ensures LeadingLineFeeds(CollapseNewlines(s)) == if LeadingLineFeeds(s) >= 3 then 2 else LeadingLineFeeds(s)
    decreases |s|
  {
    if s != [] {
      var n := LeadingLineFeeds(s);
      if n >= 3 {
        var rest := CollapseNewlines(s[n..]);
        CollapseLeadingLineFeeds(s[n..]);
        assert LeadingLineFeeds(s[n..]) == 0;
        LeadingLineFeedsCons(LineFeed, rest);
        LeadingLineFeedsCons(LineFeed, [LineFeed] + rest);
        assert [LineFeed, LineFeed] + rest == [LineFeed] + ([LineFeed] + rest);
      } else {
        CollapseLeadingLineFeeds(s[1..]);
        LeadingLineFeedsCons(s[0], CollapseNewlines(s[1..]));
        if s[0] == LineFeed {
          assert LeadingLineFeeds(s) == 1 + LeadingLineFeeds(s[1..]);
        }
      }
    }
  }

  lemma NoTripleCons(c: CodeUnit, s: JsString)
    requires NoTripleLineFeed(s)
    requires c != LineFeed || LeadingLineFeeds(s) < 2
    ensures NoTripleLineFeed([c] + s)
  {
    var t := [c] + s;
    forall i | 0 <= i < |t| - 2
      ensures !(t[i] == LineFeed && t[i + 1] == LineFeed && t[i + 2] == LineFeed)
    {
      if i > 0 {
        assert t[i] == s[i - 1] && t[i + 1] == s[i] && t[i + 2] == s[i + 1];
      } else if c == LineFeed {
        var n := LeadingLineFeeds(s);
        assert t[1] == s[0] && t[2] == s[1];
        assert n == 0 ==> s[0] != LineFeed;
        assert n == 1 ==> s[1] != LineFeed;
      }
    }
  }

  /** Two line feeds in front of text that does not start with one make no triple. */
  lemma NoTriplePair(s: JsString)
    requires NoTripleLineFeed(s) && LeadingLineFeeds(s) == 0
    ensures NoTripleLineFeed([LineFeed, LineFeed] + s)
  {
    NoTripleCons(LineFeed, s);
    LeadingLineFeedsCons(LineFeed, s);
    NoTripleCons(LineFeed, [LineFeed] + s);
    assert [LineFeed, LineFeed] + s == [LineFeed] + ([LineFeed] + s);
  }

  /** `n` line feeds. */
  function LineFeeds(n: nat): (r: JsString)
    ensures |r| == n && forall i :: 0 <= i < n ==> r[i] == LineFeed
  {
    if n == 0 then [] else [LineFeed] + LineFeeds(n - 1)
  }

  /** A run of line feeds is determined by its two ends. */
  lemma {:induction false} LeadingLineFeedsOf(s: JsString, k: nat)
    requires k <= |s| && forall i :: 0 <= i < k ==> s[i] == LineFeed
    requires k == |s| || s[k] != LineFeed
    ensures LeadingLineFeeds(s) == k
  {
    if k > 0 {
      LeadingLineFeedsOf(s[1..], k - 1);
    }
  }

  /** The run written out in front of `b` is the leading run. */
  lemma LineFeedsHead(n: nat, b: JsString)
    requires b == [] || b[0] != LineFeed
    ensures LeadingLineFeeds(LineFeeds(n) + b) == n
    ensures (LineFeeds(n) + b)[n..] == b
  {
    LeadingLineFeedsOf(LineFeeds(n) + b, n);
  }

  /** A run of three or more line feeds becomes two. */
  lemma CollapseLongRun(n: nat, b: JsString)
    requires n >= 3 && (b == [] || b[0] != LineFeed)
    ensures CollapseNewlines(LineFeeds(n) + b) == LineFeeds(2) + CollapseNewlines(b)
  {
    LineFeedsHead(n, b);
    assert LineFeeds(2) == [LineFeed, LineFeed];
  }

  /** A run of fewer than three line feeds is copied. */
  lemma {:induction false} CollapseShortRun(n: nat, b: JsString)
    requires n < 3 && (b == [] || b[0] != LineFeed)
    ensures CollapseNewlines(LineFeeds(n) + b) == LineFeeds(n) + CollapseNewlines(b)
  {
    var s := LineFeeds(n) + b;
    if n == 0 {
      assert s == b;
    } else {
      var rest := CollapseNewlines(LineFeeds(n - 1) + b);
      assert CollapseNewlines(s) == [LineFeed] + rest by {
        LineFeedsHead(n, b);
        assert s[0] == LineFeed && s[1..] == LineFeeds(n - 1) + b;
      }
      CollapseShortRun(n - 1, b);
      AppendAssoc([LineFeed], LineFeeds(n - 1), CollapseNewlines(b));
    }
  }

  /**
   * A whole run of n line feeds, followed by text that does not continue it,
   * comes out as two line feeds when n is at least three and unchanged
   * otherwise; the text after it is collapsed on its own.
   */
  lemma CollapseLineFeedRun(n: nat, b: JsString)
    requires b == [] || b[0] != LineFeed
    ensures CollapseNewlines(LineFeeds(n) + b) == (if n >= 3 then LineFeeds(2) else LineFeeds(n)) + CollapseNewlines(b)
  {
    if n >= 3 {
      CollapseLongRun(n, b);
    } else {
      CollapseShortRun(n, b);
    }
  }

  /** The leading run of `a + b` is that of `a` when `a` ends in another code unit. */
  lemma LeadingLineFeedsConcat(a: JsString, b: JsString)
    requires a != [] && a[|a| - 1] != LineFeed
    ensures LeadingLineFeeds(a + b) == LeadingLineFeeds(a) < |a|
  {
    var n := LeadingLineFeeds(a);
    LeadingLineFeedsOf(a + b, n);
  }

  /** Every text is its leading run of line feeds followed by the rest. */
  lemma SplitLeadingRun(s: JsString)
    ensures s == LineFeeds(LeadingLineFeeds(s)) + s[LeadingLineFeeds(s)..]
  {
    var n := LeadingLineFeeds(s);
    assert s[..n] == LineFeeds(n);
    assert s == s[..n] + s[n..];
  }

  /** One step of `CollapseNewlinesConcat` where `a` starts with a run of three or more. */
  lemma ConcatRunStep(a: JsString, b: JsString)
    requires a != [] && a[|a| - 1] != LineFeed && LeadingLineFeeds(a) >= 3
    ensures CollapseNewlines(a + b) == LineFeeds(2) + CollapseNewlines(a[LeadingLineFeeds(a)..] + b)
  {
    var n := LeadingLineFeeds(a);
    var rest := a[n..];
    assert n < |a| && rest[0] == a[n];
    SplitLeadingRun(a);
    assert a + b == LineFeeds(n) + (rest + b);
    CollapseLongRun(n, rest + b);
  }

  /** `CollapseNewlines` at a run of three or more, one step. */
  lemma CollapseRunUnfold(a: JsString)
    requires a != [] && LeadingLineFeeds(a) >= 3
    ensures CollapseNewlines(a) == LineFeeds(2) + CollapseNewlines(a[LeadingLineFeeds(a)..])
  {
    assert LineFeeds(2) == [LineFeed, LineFeed];
  }

  /** A code unit that does not start a run of three is copied. */
  lemma CollapseCons(c: CodeUnit, t: JsString)
    requires c != LineFeed || LeadingLineFeeds(t) < 2
    ensures CollapseNewlines([c] + t) == [c] + CollapseNewlines(t)
  {
    LeadingLineFeedsCons(c, t);
    assert ([c] + t)[1..] == t;
  }

  /** One step of `CollapseNewlinesConcat` where one code unit of `a` is copied. */
  lemma ConcatUnitStep(a: JsString, b: JsString)
    requires a != [] && a[|a| - 1] != LineFeed && LeadingLineFeeds(a) < 3
    ensures CollapseNewlines(a + b) == [a[0]] + CollapseNewlines(a[1..] + b)
  {
    var c, t := a[0], a[1..];
    assert a + b == [c] + (t + b);
    assert c != LineFeed || LeadingLineFeeds(t + b) < 2 by {
      LeadingLineFeedsConcat(a, b);
      LeadingLineFeedsCons(c, t + b);
    }
    CollapseCons(c, t + b);
  }

  /**
   * The collapse works run by run: cut where the text does not end in a
   * line feed, and each side is collapsed on its own.
   */
  lemma {:induction false} CollapseNewlinesConcat(a: JsString, b: JsString)
    requires a == [] || a[|a| - 1] != LineFeed
    ensures CollapseNewlines(a + b) == CollapseNewlines(a) + CollapseNewlines(b)
    decreases |a|
  {
    if a == [] {
      assert a + b == b;
    } else {
      var n := LeadingLineFeeds(a);
      LeadingLineFeedsConcat(a, b);
      if n >= 3 {
        CollapseNewlinesConcat(a[n..], b);
        ConcatRunStep(a, b);
        CollapseRunUnfold(a);
        AppendAssoc(LineFeeds(2), CollapseNewlines(a[n..]), CollapseNewlines(b));
      } else {
        CollapseNewlinesConcat(a[1..], b);
        ConcatUnitStep(a, b);
        assert CollapseNewlines(a) == [a[0]] + CollapseNewlines(a[1..]);
        AppendAssoc([a[0]], CollapseNewlines(a[1..]), CollapseNewlines(b));
      }
    }
  }

  /** The collapse leaves no three consecutive line feeds. */
  lemma {:induction false} CollapseNoTriple(s: JsString)
    ensures NoTripleLineFeed(CollapseNewlines(s))
    decreases |s|
  {
    if s != [] {
      var n := LeadingLineFeeds(s);
      if n >= 3 {
        CollapseNoTriple(s[n..]);
        CollapseLeadingLineFeeds(s[n..]);
        NoTriplePair(CollapseNewlines(s[n..]));
      } else {
        CollapseNoTriple(s[1..]);
        CollapseLeadingLineFeeds(s[1..]);
        assert s[0] == LineFeed ==> n == 1 + LeadingLineFeeds(s[1..]);
        NoTripleCons(s[0], CollapseNewlines(s[1..]));
      }
    }
  }

  lemma NoTripleSlice(s: JsString, lo: nat, hi: nat)
    requires lo <= hi <= |s|
    requires NoTripleLineFeed(s)
    ensures NoTripleLineFeed(s[lo..hi])
  {
    var t := s[lo..hi];
    forall i | 0 <= i < |t| - 2
      ensures !(t[i] == LineFeed && t[i + 1] == LineFeed && t[i + 2] == LineFeed)
    {
      assert t[i] == s[lo + i] && t[i + 1] == s[lo + i + 1] && t[i + 2] == s[lo + i + 2];
    }
  }

  /** Text without three consecutive line feeds passes through unchanged. */
  lemma {:induction false} CollapseNewlinesFixesClean(s: JsString)
    requires NoTripleLineFeed(s)
    ensures CollapseNewlines(s) == s
    decreases |s|
  {
    if s != [] {
      var n := LeadingLineFeeds(s);
      assert |s| >= 3 ==> !(s[0] == LineFeed && s[1] == LineFeed && s[2] == LineFeed);
      assert n < 3;
      NoTripleSlice(s, 1, |s|);
      assert s[1..|s|] == s[1..];
      CollapseNewlinesFixesClean(s[1..]);
    }
  }

  /** The collapse changes its input exactly when that holds three consecutive line feeds. */
  lemma CollapseNewlinesUnchangedIff(s: JsString)
    ensures CollapseNewlines(s) == s <==> NoTripleLineFeed(s)
  {
    CollapseNoTriple(s);
    if NoTripleLineFeed(s) {
      CollapseNewlinesFixesClean(s);
    }
  }

  lemma CollapseNewlinesIdempotent(s: JsString)
    ensures CollapseNewlines(CollapseNewlines(s)) == CollapseNewlines(s)
  {
    CollapseNoTriple(s);
    CollapseNewlinesFixesClean(CollapseNewlines(s));
  }

  /** Every code unit other than a line feed is kept, in its original order. */
  lemma {:induction false} CollapseKeepsOtherUnits(s: JsString)
    ensures Filter(CollapseNewlines(s), NotLineFeed) == Filter(s, NotLineFeed)
    decreases |s|
  {
    if s != [] {
      var n := LeadingLineFeeds(s);
      if n >= 3 {
        var rest := CollapseNewlines(s[n..]);
        CollapseKeepsOtherUnits(s[n..]);
        FilterConcat([LineFeed, LineFeed], rest, NotLineFeed);
        FilterNone([LineFeed, LineFeed], NotLineFeed);
        assert s == s[..n] + s[n..];
        FilterConcat(s[..n], s[n..], NotLineFeed);
        FilterNone(s[..n], NotLineFeed);
      } else {
        var rest := CollapseNewlines(s[1..]);
        CollapseKeepsOtherUnits(s[1..]);
        assert ([s[0]] + rest)[0] == s[0] && ([s[0]] + rest)[1..] == rest;
      }
    }
  }
}
