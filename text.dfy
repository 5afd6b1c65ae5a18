/**
 * JavaScript strings as the handler sees them: sequences of UTF-16 code
 * units, the whitespace class shared by the regular-expression escape `\s`
 * and by `String.prototype.trim`, and order-preserving filtering, which the
 * normalisation lemmas use to say which characters survive.
 */
module JsText {

  /** One UTF-16 code unit; lone surrogates are allowed, as in JavaScript. */
  newtype CodeUnit = u: int | 0 <= u < 0x1_0000

  /** A JavaScript string value. Its length counts code units. */
  type JsString = seq<CodeUnit>

  /** `\n` */
  const LineFeed: CodeUnit := 0x0A

  /**
   * ECMAScript WhiteSpace and LineTerminator code points: tab, line feed,
   * vertical tab, form feed, carriage return, space, no-break space, the
   * Unicode space separators, line and paragraph separator and the byte
   * order mark. Both `\s` and `trim` use exactly this set.
   */
  predicate IsWhitespace(c: CodeUnit) {
    || c == 0x09 || c == 0x0A || c == 0x0B || c == 0x0C || c == 0x0D
    || c == 0x20 || c == 0xA0 || c == 0x1680
    || (0x2000 <= c <= 0x200A)
    || c == 0x2028 || c == 0x2029 || c == 0x202F || c == 0x205F
    || c == 0x3000 || c == 0xFEFF
  }

  predicate NotWhitespace(c: CodeUnit) {
    !IsWhitespace(c)
  }

  predicate NotLineFeed(c: CodeUnit) {
    c != LineFeed
  }

  predicate AllWhitespace(s: JsString) {
    forall i :: 0 <= i < |s| ==> IsWhitespace(s[i])
  }

  /** Length of the whitespace run that starts `s`. */
  function LeadingWhitespace(s: JsString): (k: nat)
    ensures k <= |s|
    ensures forall i :: 0 <= i < k ==> IsWhitespace(s[i])
    ensures AllWhitespace(s[..k])
    ensures k == |s| || !IsWhitespace(s[k])
  {
    if s != [] && IsWhitespace(s[0]) then 1 + LeadingWhitespace(s[1..]) else 0
  }

  /** A whitespace run is determined by its two ends. */
  lemma {:induction false} LeadingWhitespaceOf(s: JsString, k: nat)
    requires k <= |s| && AllWhitespace(s[..k])
    requires k == |s| || !IsWhitespace(s[k])
    ensures LeadingWhitespace(s) == k
  {
    if k > 0 {
      assert IsWhitespace(s[..k][0]);
      assert s[1..][..k - 1] == s[..k][1..];
      LeadingWhitespaceOf(s[1..], k - 1);
    }
  }

  /** The code units of `s` that satisfy `keep`, in their original order. */
  function Filter(s: JsString, keep: CodeUnit -> bool): (r: JsString)
    ensures |r| <= |s|
    ensures forall i :: 0 <= i < |r| ==> keep(r[i])
  {
    if s == [] then []
    else if keep(s[0]) then [s[0]] + Filter(s[1..], keep)
    else Filter(s[1..], keep)
  }

  lemma {:induction false} FilterConcat(a: JsString, b: JsString, keep: CodeUnit -> bool)
    ensures Filter(a + b, keep) == Filter(a, keep) + Filter(b, keep)
  {
    if a != [] {
      assert (a + b)[0] == a[0] && (a + b)[1..] == a[1..] + b;
      FilterConcat(a[1..], b, keep);
      if keep(a[0]) {
        calc {
          Filter(a + b, keep);
          [a[0]] + Filter(a[1..] + b, keep);
          [a[0]] + (Filter(a[1..], keep) + Filter(b, keep));
          ([a[0]] + Filter(a[1..], keep)) + Filter(b, keep);
        }
      }
    } else {
      assert a + b == b;
    }
  }

  /**
   * Regrouping a concatenation. Proofs that unfold the regular-expression
   * scans call it explicitly rather than leave the solver to find it.
   */
  lemma AppendAssoc(p: JsString, q: JsString, r: JsString)
    ensures p + (q + r) == (p + q) + r
  {
  }

  /** Filtering drops a stretch none of whose code units is kept. */
  lemma {:induction false} FilterNone(s: JsString, keep: CodeUnit -> bool)
    requires forall i :: 0 <= i < |s| ==> !keep(s[i])
    ensures Filter(s, keep) == []
  {
    if s != [] {
      FilterNone(s[1..], keep);
    }
  }

  /** A string keeps nothing visible exactly when it is all whitespace. */
  lemma {:induction false} VisibleEmptyIff(s: JsString)
    ensures Filter(s, NotWhitespace) == [] <==> AllWhitespace(s)
  {
    if s != [] {
      VisibleEmptyIff(s[1..]);
      if IsWhitespace(s[0]) {
        assert AllWhitespace(s) <==> AllWhitespace(s[1..]) by {
          if AllWhitespace(s[1..]) {
            forall i | 0 <= i < |s| ensures IsWhitespace(s[i]) {
              if i > 0 { assert s[i] == s[1..][i - 1]; }
            }
          }
        }
      }
    }
  }

  /** Filtering with a finer test after a coarser one is filtering with the finer one. */
  lemma {:induction false} FilterRefine(s: JsString, coarse: CodeUnit -> bool, fine: CodeUnit -> bool)
    requires forall c :: fine(c) ==> coarse(c)
    ensures Filter(Filter(s, coarse), fine) == Filter(s, fine)
  {
    if s != [] {
      FilterRefine(s[1..], coarse, fine);
      if coarse(s[0]) {
        assert ([s[0]] + Filter(s[1..], coarse))[1..] == Filter(s[1..], coarse);
      }
    }
  }

  /** Every line feed is visible to a line-feed filter as whitespace. */
  lemma VisibleAfterLineFeedFilter(s: JsString)
    ensures Filter(Filter(s, NotLineFeed), NotWhitespace) == Filter(s, NotWhitespace)
  {
    FilterRefine(s, NotLineFeed, NotWhitespace);
  }
}
