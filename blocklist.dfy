/**
 * The request filter `/^http:\/\/|^file:|@/i` (api/scrape.js:17-18). It is a
 * plain string test: it does not parse the URL, so it looks at the first
 * code units for the two schemes and at every code unit for `@`.
 */
module Blocklist {
  import opened JsText

  /** `http://` */
  const HttpPrefix: JsString := [0x68, 0x74, 0x74, 0x70, 0x3A, 0x2F, 0x2F]
  /** `file:` */
  const FilePrefix: JsString := [0x66, 0x69, 0x6C, 0x65, 0x3A]
  /** `https://` */
  const HttpsPrefix: JsString := [0x68, 0x74, 0x74, 0x70, 0x73, 0x3A, 0x2F, 0x2F]
  /** `@` */
  const AtSign: CodeUnit := 0x40

  /**
   * Case folding of the `i` flag without the `u` flag. Such a pattern folds
   * through upper case and never lets a non-ASCII code unit match an ASCII
   * one, so against an ASCII pattern only the ASCII letters have partners.
   */
  function FoldCase(c: CodeUnit): CodeUnit {
    if 0x41 <= c <= 0x5A then c + 0x20 else c
  }

  predicate StartsWithIgnoringCase(s: JsString, prefix: JsString) {
    |prefix| <= |s| && forall k :: 0 <= k < |prefix| ==> FoldCase(s[k]) == FoldCase(prefix[k])
  }

  /** The pattern's alternatives tried at position `i`; `^` only holds at 0. */
  predicate MatchesAt(s: JsString, i: nat)
    requires i <= |s|
  {
    || (i == 0 && StartsWithIgnoringCase(s, HttpPrefix))
    || (i == 0 && StartsWithIgnoringCase(s, FilePrefix))
    || (i < |s| && s[i] == AtSign)
  }

  /** `RegExp.prototype.test` without the `g` flag: try every position from `i` on. */
  predicate SearchFrom(s: JsString, i: nat)
    requires i <= |s|
    decreases |s| - i
  {
    MatchesAt(s, i) || (i < |s| && SearchFrom(s, i + 1))
  }

  /** `blocked.some(rx => rx.test(target))`; the list holds the one pattern. */
  predicate IsBlocked(url: JsString) {
    SearchFrom(url, 0)
  }

  /** Past position 0 only the `@` alternative can match. */
  lemma {:induction false} SearchFromIff(s: JsString, i: nat)
    requires 0 < i <= |s|
    ensures SearchFrom(s, i) <==> AtSign in s[i..]
    decreases |s| - i
  {
    if i < |s| {
      SearchFromIff(s, i + 1);
      assert s[i..] == [s[i]] + s[i + 1..];
    }
  }

  /**
   * A URL is refused exactly when it starts with `http://` or `file:` in any
   * mix of ASCII case, or holds `@` anywhere.
   */
  lemma IsBlockedIff(url: JsString)
    ensures IsBlocked(url) <==>
      || StartsWithIgnoringCase(url, HttpPrefix)
      || StartsWithIgnoringCase(url, FilePrefix)
      || AtSign in url
  {
    if url != [] {
      SearchFromIff(url, 1);
      assert url == [url[0]] + url[1..];
    }
  }

  /** An `https://` URL (any case) is let through unless it holds `@`. */
  lemma HttpsAllowed(url: JsString)
    requires StartsWithIgnoringCase(url, HttpsPrefix) && AtSign !in url
    ensures !IsBlocked(url)
  {
    IsBlockedIff(url);
    assert FoldCase(url[4]) == FoldCase(HttpsPrefix[4]);
    assert FoldCase(url[0]) == FoldCase(HttpsPrefix[0]);
  }

  /**
   * The scheme alternatives only look at the very first code units: a URL
   * that starts with anything but `h` or `f` (a space, say, or `ftp:` or
   * `data:` after it) is let through unless it holds `@`.
   */
  lemma OnlyLeadingSchemeChecked(url: JsString)
    requires url != [] && FoldCase(url[0]) != 0x68 && FoldCase(url[0]) != 0x66
    requires AtSign !in url
    ensures !IsBlocked(url)
  {
    IsBlockedIff(url);
  }
}
