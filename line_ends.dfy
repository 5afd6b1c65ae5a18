/**
 * The line-end cleanup `replace(/\s+\n/g, "\n")` that the handler applies to
 * the body text on the fallback path only (api/scrape.js:49).
 *
 * Because `\s` also matches `\n`, a whitespace run is cut from its start to
 * its LAST line feed: trailing blanks go, and so do blank lines.
 */
module LineEnds {
  import opened JsText

  /** Index of the last line feed in `s[..k]`, or -1 when there is none. */
  function LastLineFeed(s: JsString, k: nat): (j: int)
    requires k <= |s|
    ensures -1 <= j < k
    ensures j >= 0 ==> s[j] == LineFeed
  {
    if k == 0 then -1
    else if s[k - 1] == LineFeed then k - 1
    else LastLineFeed(s, k - 1)
  }

  /** It is the last one: no line feed lies between it and `k`. */
  lemma {:induction false} LastLineFeedIsLast(s: JsString, k: nat)
    requires k <= |s|
    ensures NoLineFeedBetween(s, LastLineFeed(s, k) + 1, k)
  {
    if k > 0 && s[k - 1] != LineFeed {
      LastLineFeedIsLast(s, k - 1);
    }
  }

  /**
   * End of the match of `/\s+\n/` at position 0 of `s`, or 0 when it does not
   * match there. The greedy `\s+` takes the whole whitespace run and backs off
   * to its last line feed, but must keep at least one code unit.
   */
  function MatchEnd(s: JsString): (e: nat)
    ensures e <= |s|
    ensures e > 0 ==> 2 <= e <= LeadingWhitespace(s) && s[e - 1] == LineFeed
  {
    var j := LastLineFeed(s, LeadingWhitespace(s));
    if j >= 1 then j + 1 else 0
  }

  /**
   * Where the greedy `\s+` backs off to: no line feed of the leading
   * whitespace run lies past the match, and when there is no match none lies
   * past its first code unit.
   */
  lemma MatchEndStopsAtLastLineFeed(s: JsString)
    ensures MatchEnd(s) > 0 ==> forall i :: MatchEnd(s) <= i < LeadingWhitespace(s) ==> s[i] != LineFeed
    ensures MatchEnd(s) == 0 ==> forall i :: 0 < i < LeadingWhitespace(s) ==> s[i] != LineFeed
  {
    LastLineFeedIsLast(s, LeadingWhitespace(s));
  }

  /**
   * `s.replace(/\s+\n/g, "\n")`. The global search tries each position from
   * left to right: where the pattern matches, the match becomes one line
   * feed and the search resumes after it; elsewhere one code unit is copied.
   */
  function CollapseWsBeforeNewline(s: JsString): (r: JsString)
    ensures |r| <= |s|
    decreases |s|
  {
    if s == [] then []
    else
      var e := MatchEnd(s);
      if e > 0 then [LineFeed] + CollapseWsBeforeNewline(s[e..])
      else [s[0]] + CollapseWsBeforeNewline(s[1..])
  }

  /** No line feed directly follows a whitespace code unit. */
  predicate NoWhitespaceBeforeLineFeed(s: JsString) {
    forall i :: 0 < i < |s| && s[i] == LineFeed ==> !IsWhitespace(s[i - 1])
  }

  /** The output starts with a line feed exactly when the input's leading whitespace run holds one. */
  lemma WsCollapseHead(s: JsString)
    requires s != []
    ensures CollapseWsBeforeNewline(s) != []
    ensures CollapseWsBeforeNewline(s)[0] == LineFeed <==> LineFeed in s[..LeadingWhitespace(s)]
  {
    var k := LeadingWhitespace(s);
    MatchEndStopsAtLastLineFeed(s);
    if MatchEnd(s) > 0 {
      assert s[..k][MatchEnd(s) - 1] == LineFeed;
    } else if s[0] == LineFeed {
      assert s[..k][0] == LineFeed;
    }
  }

  lemma NoWhitespaceBeforeCons(c: CodeUnit, s: JsString)
    requires NoWhitespaceBeforeLineFeed(s)
    requires IsWhitespace(c) ==> s == [] || s[0] != LineFeed
    ensures NoWhitespaceBeforeLineFeed([c] + s)
  {
    var t := [c] + s;
    forall i | 0 < i < |t| && t[i] == LineFeed ensures !IsWhitespace(t[i - 1]) {
      if i > 1 {
        assert t[i] == s[i - 1] && t[i - 1] == s[i - 2];
      } else {
        assert t[1] == s[0];
      }
    }
  }

  /** After the rest of a whitespace run that holds no more line feeds, output starts as input does. */
  lemma RestOfRun(s: JsString, e: nat)
    requires e <= LeadingWhitespace(s)
    requires forall i :: e <= i < LeadingWhitespace(s) ==> s[i] != LineFeed
    ensures LeadingWhitespace(s[e..]) == LeadingWhitespace(s) - e
    ensures LineFeed !in s[e..][..LeadingWhitespace(s[e..])]
  {
    var k := LeadingWhitespace(s);
    assert s[e..][..k - e] == s[e..k];
    assert forall i :: 0 <= i < k - e ==> s[e..k][i] == s[e + i];
    LeadingWhitespaceOf(s[e..], k - e);
  }

  /** After the cleanup no line feed is directly preceded by whitespace. */
  lemma {:induction false} CollapseNoWhitespaceBeforeLineFeed(s: JsString)
    ensures NoWhitespaceBeforeLineFeed(CollapseWsBeforeNewline(s))
    decreases |s|
  {
    if s != [] {
      var e := MatchEnd(s);
      if e > 0 {
        var t := s[e..];
        CollapseNoWhitespaceBeforeLineFeed(t);
        if t != [] {
          MatchEndStopsAtLastLineFeed(s);
          RestOfRun(s, e);
          WsCollapseHead(t);
        }
        NoWhitespaceBeforeCons(LineFeed, CollapseWsBeforeNewline(t));
      } else {
        var t := s[1..];
        CollapseNoWhitespaceBeforeLineFeed(t);
        if t != [] && IsWhitespace(s[0]) {
          MatchEndStopsAtLastLineFeed(s);
          RestOfRun(s, 1);
          WsCollapseHead(t);
        }
        NoWhitespaceBeforeCons(s[0], CollapseWsBeforeNewline(t));
      }
    }
  }

  /** Consequently no two line feeds are adjacent: every blank line is gone. */
  lemma NoAdjacentLineFeeds(s: JsString)
    ensures forall i :: 0 < i < |CollapseWsBeforeNewline(s)| && CollapseWsBeforeNewline(s)[i] == LineFeed ==>
              CollapseWsBeforeNewline(s)[i - 1] != LineFeed
  {
    CollapseNoWhitespaceBeforeLineFeed(s);
  }

  /** Every non-whitespace code unit is kept, in its original order. */
  lemma {:induction false} WsCollapseKeepsVisible(s: JsString)
    ensures Filter(CollapseWsBeforeNewline(s), NotWhitespace) == Filter(s, NotWhitespace)
    decreases |s|
  {
    if s != [] {
      var e := MatchEnd(s);
      if e > 0 {
        var rest := CollapseWsBeforeNewline(s[e..]);
        WsCollapseKeepsVisible(s[e..]);
        assert ([LineFeed] + rest)[0] == LineFeed && ([LineFeed] + rest)[1..] == rest;
        assert s == s[..e] + s[e..];
        FilterConcat(s[..e], s[e..], NotWhitespace);
        FilterNone(s[..e], NotWhitespace);
      } else {
        var rest := CollapseWsBeforeNewline(s[1..]);
        WsCollapseKeepsVisible(s[1..]);
        assert ([s[0]] + rest)[0] == s[0] && ([s[0]] + rest)[1..] == rest;
      }
    }
  }

  lemma NoWhitespaceBeforeSlice(s: JsString, lo: nat, hi: nat)
    requires lo <= hi <= |s|
    requires NoWhitespaceBeforeLineFeed(s)
    ensures NoWhitespaceBeforeLineFeed(s[lo..hi])
  {
    var t := s[lo..hi];
    forall i | 0 < i < |t| && t[i] == LineFeed ensures !IsWhitespace(t[i - 1]) {
      assert t[i] == s[lo + i] && t[i - 1] == s[lo + i - 1];
    }
  }

  /** The last line feed below `k` depends only on the code units below `k`. */
  lemma {:induction false} LastLineFeedConcat(a: JsString, b: JsString, k: nat)
    requires k <= |a|
    ensures LastLineFeed(a + b, k) == LastLineFeed(a, k)
  {
    if k > 0 {
      assert (a + b)[k - 1] == a[k - 1];
      LastLineFeedConcat(a, b, k - 1);
    }
  }

  /** The leading whitespace run of `a + b` is that of `a` when `a` ends in a visible code unit. */
  lemma LeadingWhitespaceConcat(a: JsString, b: JsString)
    requires a != [] && !IsWhitespace(a[|a| - 1])
    ensures LeadingWhitespace(a + b) == LeadingWhitespace(a) < |a|
  {
    var k := LeadingWhitespace(a);
    assert (a + b)[..k] == a[..k];
    LeadingWhitespaceOf(a + b, k);
  }

  /** So does the match at position 0. */
  lemma MatchEndConcat(a: JsString, b: JsString)
    requires a != [] && !IsWhitespace(a[|a| - 1])
    ensures MatchEnd(a + b) == MatchEnd(a) < |a|
  {
    LeadingWhitespaceConcat(a, b);
    LastLineFeedConcat(a, b, LeadingWhitespace(a));
  }

  /** One step of `WsCollapseConcat` where the pattern matches at the start of `a`. */
  lemma ConcatMatchStep(a: JsString, b: JsString)
    requires a != [] && !IsWhitespace(a[|a| - 1]) && MatchEnd(a) > 0
    ensures CollapseWsBeforeNewline(a + b) == [LineFeed] + CollapseWsBeforeNewline(a[MatchEnd(a)..] + b)
  {
    MatchEndConcat(a, b);
    assert (a + b)[MatchEnd(a)..] == a[MatchEnd(a)..] + b;
  }

  /** One step of `WsCollapseConcat` where one code unit of `a` is copied. */
  lemma ConcatCopyStep(a: JsString, b: JsString)
    requires a != [] && !IsWhitespace(a[|a| - 1]) && MatchEnd(a) == 0
    ensures CollapseWsBeforeNewline(a + b) == [a[0]] + CollapseWsBeforeNewline(a[1..] + b)
  {
    MatchEndConcat(a, b);
    assert (a + b)[0] == a[0] && (a + b)[1..] == a[1..] + b;
  }

  /** `CollapseWsBeforeNewline` where the pattern matches at the start, one step. */
  lemma MatchUnfold(a: JsString)
    requires a != [] && MatchEnd(a) > 0
    ensures CollapseWsBeforeNewline(a) == [LineFeed] + CollapseWsBeforeNewline(a[MatchEnd(a)..])
  {
  }

  /** `MatchUnfold`, for a match end and the text after it already known. */
  lemma MatchUnfoldAt(a: JsString, e: nat, rest: JsString)
    requires a != [] && e == MatchEnd(a) > 0 && rest == a[e..]
    ensures CollapseWsBeforeNewline(a) == [LineFeed] + CollapseWsBeforeNewline(rest)
  {
  }

  /** `CollapseWsBeforeNewline` where it does not, one step. */
  lemma CopyUnfold(a: JsString)
    requires a != [] && MatchEnd(a) == 0
    ensures CollapseWsBeforeNewline(a) == [a[0]] + CollapseWsBeforeNewline(a[1..])
  {
  }

  /** `CopyUnfold`, for the copied code unit and the text after it already known. */
  lemma CopyUnfoldAt(a: JsString, c: CodeUnit, rest: JsString)
    requires a != [] && MatchEnd(a) == 0 && c == a[0] && rest == a[1..]
    ensures CollapseWsBeforeNewline(a) == [c] + CollapseWsBeforeNewline(rest)
  {
  }

  /**
   * The cleanup works run by run: cut where the text ends in a visible code
   * unit, and each side is cleaned on its own.
   */
  lemma {:induction false} WsCollapseConcat(a: JsString, b: JsString)
    requires a == [] || !IsWhitespace(a[|a| - 1])
    ensures CollapseWsBeforeNewline(a + b) == CollapseWsBeforeNewline(a) + CollapseWsBeforeNewline(b)
    decreases |a|
  {
    if a == [] {
      assert a + b == b;
    } else {
      var e := MatchEnd(a);
      MatchEndConcat(a, b);
      if e > 0 {
        WsCollapseConcat(a[e..], b);
        ConcatMatchStep(a, b);
        MatchUnfold(a);
        AppendAssoc([LineFeed], CollapseWsBeforeNewline(a[e..]), CollapseWsBeforeNewline(b));
      } else {
        WsCollapseConcat(a[1..], b);
        ConcatCopyStep(a, b);
        CopyUnfold(a);
        AppendAssoc([a[0]], CollapseWsBeforeNewline(a[1..]), CollapseWsBeforeNewline(b));
      }
    }
  }

  /** No line feed at the positions from `lo` up to `hi`. */
  predicate NoLineFeedBetween(s: JsString, lo: int, hi: int) {
    forall i :: lo <= i < hi && 0 <= i < |s| ==> s[i] != LineFeed
  }

  /** Cutting `d` code units off the front shifts a stretch without line feeds down by `d`. */
  lemma NoLineFeedAfterCut(s: JsString, d: nat, k: nat)
    requires d <= k <= |s| && NoLineFeedBetween(s, d, k)
    ensures NoLineFeedBetween(s[d..], 0, k - d)
  {
    assert forall i :: 0 <= i < k - d ==> s[d..][i] == s[d + i];
  }

  /** A whitespace run `w` followed by text that does not continue it is the leading run of `w + b`. */
  lemma RunFacts(w: JsString, b: JsString)
    requires AllWhitespace(w) && (b == [] || !IsWhitespace(b[0]))
    ensures LeadingWhitespace(w + b) == |w|
    ensures LastLineFeed(w + b, |w|) == LastLineFeed(w, |w|)
  {
    assert (w + b)[..|w|] == w;
    LeadingWhitespaceOf(w + b, |w|);
    LastLineFeedConcat(w, b, |w|);
  }

  /** The pattern does not match at the start of a run with no line feed past its first code unit. */
  lemma UnbrokenRunHead(w: JsString, b: JsString)
    requires w != [] && AllWhitespace(w) && (b == [] || !IsWhitespace(b[0]))
    requires NoLineFeedBetween(w, 1, |w|)
    ensures CollapseWsBeforeNewline(w + b) == [w[0]] + CollapseWsBeforeNewline(w[1..] + b)
  {
    RunFacts(w, b);
    DropConcat(w, b, 1);
    CopyUnfoldAt(w + b, w[0], w[1..] + b);
  }

  /**
   * A whitespace run `w` with no line feed past its first code unit, followed
   * by text that does not continue it, is copied as it is; the text after it
   * is cleaned on its own.
   */
  lemma {:induction false} WsCollapseUnbrokenRun(w: JsString, b: JsString)
    requires AllWhitespace(w) && (b == [] || !IsWhitespace(b[0]))
    requires NoLineFeedBetween(w, 1, |w|)
    ensures CollapseWsBeforeNewline(w + b) == w + CollapseWsBeforeNewline(b)
    decreases |w|
  {
    if w == [] {
      assert w + b == b;
    } else {
      UnbrokenRunHead(w, b);
      NoLineFeedAfterCut(w, 1, |w|);
      WsCollapseUnbrokenRun(w[1..], b);
      AppendAssoc([w[0]], w[1..], CollapseWsBeforeNewline(b));
      assert [w[0]] + w[1..] == w;
    }
  }

  /** Where that match ends. */
  lemma MatchEndOfRun(w: JsString, b: JsString, j: nat)
    requires AllWhitespace(w) && (b == [] || !IsWhitespace(b[0]))
    requires j == LastLineFeed(w, |w|) >= 1
    ensures w + b != [] && MatchEnd(w + b) == j + 1
  {
    RunFacts(w, b);
  }

  /** Dropping a front part of `w` from `w + b`. */
  lemma DropConcat(w: JsString, b: JsString, d: nat)
    requires d <= |w|
    ensures (w + b)[d..] == w[d..] + b
  {
  }

  /** The pattern matches at the start of a run whose last line feed `j` is not its first code unit, up to `j`. */
  lemma BrokenRunHead(w: JsString, b: JsString, j: nat)
    requires AllWhitespace(w) && (b == [] || !IsWhitespace(b[0]))
    requires j == LastLineFeed(w, |w|) >= 1
    ensures CollapseWsBeforeNewline(w + b) == [LineFeed] + CollapseWsBeforeNewline(w[j + 1..] + b)
  {
    MatchEndOfRun(w, b, j);
    DropConcat(w, b, j + 1);
    MatchUnfoldAt(w + b, j + 1, w[j + 1..] + b);
  }

  /** A run whose last line feed `j` is not its first code unit is replaced up to `j` by one line feed. */
  lemma WsCollapseBrokenRun(w: JsString, b: JsString, j: nat)
    requires AllWhitespace(w) && (b == [] || !IsWhitespace(b[0]))
    requires j == LastLineFeed(w, |w|) >= 1
    ensures CollapseWsBeforeNewline(w + b) == ([LineFeed] + w[j + 1..]) + CollapseWsBeforeNewline(b)
  {
    BrokenRunHead(w, b, j);
    LastLineFeedIsLast(w, |w|);
    NoLineFeedAfterCut(w, j + 1, |w|);
    WsCollapseUnbrokenRun(w[j + 1..], b);
    AppendAssoc([LineFeed], w[j + 1..], CollapseWsBeforeNewline(b));
  }

  /**
   * A whole whitespace run `w`, followed by text that does not continue it,
   * comes out with everything up to and including its last line feed
   * replaced by one line feed, provided that line feed is not the run's
   * first code unit (the pattern needs at least one whitespace code unit
   * before it); otherwise the run is kept as it is. The text after the run
   * is cleaned on its own.
   */
  lemma WsCollapseRun(w: JsString, b: JsString)
    requires AllWhitespace(w)
    requires b == [] || !IsWhitespace(b[0])
    ensures var j := LastLineFeed(w, |w|);
      CollapseWsBeforeNewline(w + b) ==
        (if j >= 1 then [LineFeed] + w[j + 1..] else w) + CollapseWsBeforeNewline(b)
  {
    var j := LastLineFeed(w, |w|);
    if j >= 1 {
      WsCollapseBrokenRun(w, b, j);
    } else {
      LastLineFeedIsLast(w, |w|);
      WsCollapseUnbrokenRun(w, b);
    }
  }

  /** Text in which no line feed follows whitespace passes through unchanged. */
  lemma {:induction false} WsCollapseFixesClean(s: JsString)
    requires NoWhitespaceBeforeLineFeed(s)
    ensures CollapseWsBeforeNewline(s) == s
    decreases |s|
  {
    if s != [] {
      var k := LeadingWhitespace(s);
      forall i | 0 < i < k ensures s[i] != LineFeed {
        assert IsWhitespace(s[i - 1]);
      }
      assert MatchEnd(s) == 0;
      NoWhitespaceBeforeSlice(s, 1, |s|);
      assert s[1..|s|] == s[1..];
      WsCollapseFixesClean(s[1..]);
    }
  }

  /** The cleanup changes its input exactly when some line feed follows whitespace. */
  lemma WsCollapseUnchangedIff(s: JsString)
    ensures CollapseWsBeforeNewline(s) == s <==> NoWhitespaceBeforeLineFeed(s)
  {
    CollapseNoWhitespaceBeforeLineFeed(s);
    if NoWhitespaceBeforeLineFeed(s) {
      WsCollapseFixesClean(s);
    }
  }

  lemma WsCollapseIdempotent(s: JsString)
    ensures CollapseWsBeforeNewline(CollapseWsBeforeNewline(s)) == CollapseWsBeforeNewline(s)
  {
    CollapseNoWhitespaceBeforeLineFeed(s);
    WsCollapseFixesClean(CollapseWsBeforeNewline(s));
  }
}
