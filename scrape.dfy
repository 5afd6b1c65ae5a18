/**
 * The scrape endpoint `GET /api/scrape?url=...` (api/scrape.js:9-63) as a
 * decision function: from the query, the outcome of the page fetch and what
 * JSDOM and Readability make of the page, to the JSON response.
 *
 * The fetch and the two libraries are outside code; their results are
 * inputs here. What the handler itself decides is modelled: the request
 * checks, the title fallback, the text normalisation, the body-text fallback,
 * the length cap and the shape of the response.
 */
module Scrape {
  import opened JsText
  import opened Newlines
  import opened LineEnds
  import opened Trim
  import opened Blocklist

  datatype Option<T> = None | Some(value: T)

  /** What `Readability.parse()` returns when it finds an article; either field may be missing. */
  datatype Article = Article(title: Option<JsString>, textContent: Option<JsString>)

  /**
   * What the handler reads from the parsed page: the article (missing when
   * `parse()` returns null), `document.title` and `document.body?.textContent`.
   */
  datatype Extraction = Extraction(article: Option<Article>, documentTitle: Option<JsString>, bodyText: Option<JsString>)

  /** A call into outside code that returns a value or throws; `error` is `String(err)`. */
  datatype Outcome<T> = Returned(value: T) | Threw(error: JsString)

  /** A fetched page: the upstream HTTP status and the body as text. */
  datatype Page = Page(status: int, html: JsString)

  /** The JSON the handler sends: `{url, title, text, status}` with HTTP 200, or `{error}` with `code`. */
  datatype Response =
    | Success(url: JsString, title: JsString, text: JsString, status: int)
    | Failure(code: int, error: JsString)

  /** `"Missing url parameter ?url="` */
  const MissingUrlMessage: JsString :=
    [0x4D, 0x69, 0x73, 0x73, 0x69, 0x6E, 0x67, 0x20, 0x75, 0x72, 0x6C, 0x20, 0x70, 0x61, 0x72, 0x61, 0x6D, 0x65, 0x74, 0x65, 0x72, 0x20, 0x3F, 0x75, 0x72, 0x6C, 0x3D]
  /** `"URL scheme not allowed."` */
  const SchemeNotAllowedMessage: JsString :=
    [0x55, 0x52, 0x4C, 0x20, 0x73, 0x63, 0x68, 0x65, 0x6D, 0x65, 0x20, 0x6E, 0x6F, 0x74, 0x20, 0x61, 0x6C, 0x6C, 0x6F, 0x77, 0x65, 0x64, 0x2E]

  /** The safety limit on the returned text, in UTF-16 code units. */
  const MaxTextLength: nat := 250000

  /** The HTTP status the handler answers with. */
  function HttpStatus(r: Response): int {
    if r.Success? then 200 else r.code
  }

  /** JavaScript truthiness of an optional string: present and not empty. */
  predicate Truthy(s: Option<JsString>) {
    s.Some? && s.value != []
  }

  /** `article?.title` */
  function ArticleTitle(article: Option<Article>): Option<JsString> {
    if article.Some? then article.value.title else None
  }

  /**
   * `article?.title || dom.window.document.title || ""`: the first candidate
   * that is present and not empty, else the empty string.
   */
  function SelectTitle(article: Option<Article>, documentTitle: Option<JsString>): (r: JsString)
    ensures Truthy(ArticleTitle(article)) ==> Some(r) == ArticleTitle(article)
    ensures !Truthy(ArticleTitle(article)) && Truthy(documentTitle) ==> Some(r) == documentTitle
    ensures r == [] <==> !Truthy(ArticleTitle(article)) && !Truthy(documentTitle)
  {
    var fromArticle := ArticleTitle(article);
    if Truthy(fromArticle) then fromArticle.value
    else if Truthy(documentTitle) then documentTitle.value
    else []
  }

  /** `.replace(/\n{3,}/g, "\n\n").trim()` on the article text. */
  function NormalizeArticleText(t: JsString): JsString {
    Trim.Trim(CollapseNewlines(t))
  }

  /** `.replace(/\s+\n/g, "\n").replace(/\n{3,}/g, "\n\n").trim()` on the body text. */
  function NormalizeBodyText(b: JsString): JsString {
    Trim.Trim(CollapseNewlines(CollapseWsBeforeNewline(b)))
  }

  /** `article?.textContent?.replace(...)?.trim() || ""` */
  function ArticleText(article: Option<Article>): JsString {
    if article.Some? && article.value.textContent.Some? then
      NormalizeArticleText(article.value.textContent.value)
    else []
  }

  /** `dom.window.document.body?.textContent?.replace(...)?.replace(...)?.trim() || ""` */
  function BodyText(body: Option<JsString>): JsString {
    if body.Some? then NormalizeBodyText(body.value) else []
  }

  /** `let outText = text; if (!outText) { outText = <body text> }` */
  function SelectText(x: Extraction): JsString {
    var text := ArticleText(x.article);
    if text != [] then text else BodyText(x.bodyText)
  }

  /** `outText.slice(0, 250000)` */
  function Truncate(s: JsString): (r: JsString)
    ensures |r| <= MaxTextLength
    ensures |r| <= |s| && r == s[..|r|]
    ensures |s| <= MaxTextLength ==> r == s
    ensures |s| > MaxTextLength ==> |r| == MaxTextLength
  {
    if |s| <= MaxTextLength then s else s[..MaxTextLength]
  }

  /**
   * The handler. `fetched` is what `fetch(target)` and `resp.text()` gave;
   * `parse` is what JSDOM and Readability make of a page body at a URL.
   */
  function Respond(query: Option<JsString>, fetched: Outcome<Page>, parse: (JsString, JsString) -> Outcome<Extraction>): (r: Response)
    ensures r.Success? <==> HttpStatus(r) == 200
    ensures HttpStatus(r) == 200 || HttpStatus(r) == 400 || HttpStatus(r) == 500
    ensures HttpStatus(r) == 400 <==> !Truthy(query) || IsBlocked(query.value)
    ensures HttpStatus(r) == 500 <==>
      Truthy(query) && !IsBlocked(query.value) && (fetched.Threw? || parse(fetched.value.html, query.value).Threw?)
    ensures r.Success? ==> r.url == query.value && fetched.Returned? && r.status == fetched.value.status
  {
    if !Truthy(query) then Failure(400, MissingUrlMessage)
    else if IsBlocked(query.value) then Failure(400, SchemeNotAllowedMessage)
    else match fetched
      case Threw(e) => Failure(500, e)
      case Returned(page) =>
        match parse(page.html, query.value)
        case Threw(e) => Failure(500, e)
        case Returned(x) =>
          Success(query.value, SelectTitle(x.article, x.documentTitle), Truncate(SelectText(x)), page.status)
  }

  // ---------------------------------------------------------------------------
  // Text normalisation

  lemma TrimmedEmptyIff(s: JsString)
    requires Trimmed(s)
    ensures s == [] <==> Filter(s, NotWhitespace) == []
  {
  }

  /** Trimming keeps "no three consecutive line feeds". */
  lemma TrimKeepsNoTriple(s: JsString)
    requires NoTripleLineFeed(s)
    ensures NoTripleLineFeed(Trim.Trim(s))
  {
    NoTripleSlice(s, LeadingWhitespace(s), LeadingWhitespace(s) + |Trim.Trim(s)|);
  }

  /** Trimming keeps "no line feed after whitespace". */
  lemma TrimKeepsNoWhitespaceBefore(s: JsString)
    requires NoWhitespaceBeforeLineFeed(s)
    ensures NoWhitespaceBeforeLineFeed(Trim.Trim(s))
  {
    NoWhitespaceBeforeSlice(s, LeadingWhitespace(s), LeadingWhitespace(s) + |Trim.Trim(s)|);
  }

  /** The normalised article text is trimmed and holds no three consecutive line feeds. */
  lemma NormalizeArticleTextClean(t: JsString)
    ensures Trimmed(NormalizeArticleText(t))
    ensures NoTripleLineFeed(NormalizeArticleText(t))
  {
    CollapseNoTriple(t);
    TrimKeepsNoTriple(CollapseNewlines(t));
  }

  /** Normalising the article text keeps every visible code unit, in order. */
  lemma NormalizeArticleTextKeepsVisible(t: JsString)
    ensures Filter(NormalizeArticleText(t), NotWhitespace) == Filter(t, NotWhitespace)
  {
    var c := CollapseNewlines(t);
    TrimKeepsVisible(c);
    CollapseKeepsOtherUnits(t);
    VisibleAfterLineFeedFilter(c);
    VisibleAfterLineFeedFilter(t);
  }

  /** Normalising the article text a second time changes nothing. */
  lemma NormalizeArticleTextIdempotent(t: JsString)
    ensures NormalizeArticleText(NormalizeArticleText(t)) == NormalizeArticleText(t)
  {
    var r := NormalizeArticleText(t);
    NormalizeArticleTextClean(t);
    CollapseNewlinesFixesClean(r);
    TrimFixesTrimmed(r);
  }

  /** After the line-end cleanup there are no two adjacent line feeds, so the blank-line collapse has nothing to do. */
  lemma BlankLineCollapseIsNoOp(b: JsString)
    ensures CollapseNewlines(CollapseWsBeforeNewline(b)) == CollapseWsBeforeNewline(b)
  {
    var w := CollapseWsBeforeNewline(b);
    CollapseNoWhitespaceBeforeLineFeed(b);
    forall i | 0 <= i < |w| - 2
      ensures !(w[i] == LineFeed && w[i + 1] == LineFeed && w[i + 2] == LineFeed)
    {
      assert w[i + 1] == LineFeed ==> !IsWhitespace(w[i]);
    }
    CollapseNewlinesFixesClean(w);
  }

  /**
   * The normalised body text is the trimmed line-end cleanup; it is trimmed
   * and no line feed in it follows whitespace, so it holds no blank line.
   */
  lemma NormalizeBodyTextClean(b: JsString)
    ensures NormalizeBodyText(b) == Trim.Trim(CollapseWsBeforeNewline(b))
    ensures Trimmed(NormalizeBodyText(b))
    ensures NoWhitespaceBeforeLineFeed(NormalizeBodyText(b))
  {
    BlankLineCollapseIsNoOp(b);
    CollapseNoWhitespaceBeforeLineFeed(b);
    TrimKeepsNoWhitespaceBefore(CollapseWsBeforeNewline(b));
  }

  /** Normalising the body text keeps every visible code unit, in order. */
  lemma NormalizeBodyTextKeepsVisible(b: JsString)
    ensures Filter(NormalizeBodyText(b), NotWhitespace) == Filter(b, NotWhitespace)
  {
    BlankLineCollapseIsNoOp(b);
    TrimKeepsVisible(CollapseWsBeforeNewline(b));
    WsCollapseKeepsVisible(b);
  }

  /** Normalising the body text a second time changes nothing. */
  lemma NormalizeBodyTextIdempotent(b: JsString)
    ensures NormalizeBodyText(NormalizeBodyText(b)) == NormalizeBodyText(b)
  {
    var r := NormalizeBodyText(b);
    NormalizeBodyTextClean(b);
    WsCollapseFixesClean(r);
    BlankLineCollapseIsNoOp(r);
    TrimFixesTrimmed(r);
  }

  // ---------------------------------------------------------------------------
  // Fallback choice

  /** Readability gave no article, no text, or text made only of whitespace. */
  predicate ArticleTextBlank(article: Option<Article>) {
    article.None? || article.value.textContent.None? || AllWhitespace(article.value.textContent.value)
  }

  /** The normalised article text is empty exactly when the raw article text is blank. */
  lemma ArticleTextEmptyIff(article: Option<Article>)
    ensures ArticleText(article) == [] <==> ArticleTextBlank(article)
  {
    if article.Some? && article.value.textContent.Some? {
      var t := article.value.textContent.value;
      NormalizeArticleTextClean(t);
      NormalizeArticleTextKeepsVisible(t);
      TrimmedEmptyIff(NormalizeArticleText(t));
      VisibleEmptyIff(t);
    }
  }

  /** The normalised body text is empty exactly when there is no body or it is all whitespace. */
  lemma BodyTextEmptyIff(body: Option<JsString>)
    ensures BodyText(body) == [] <==> body.None? || AllWhitespace(body.value)
  {
    if body.Some? {
      NormalizeBodyTextClean(body.value);
      NormalizeBodyTextKeepsVisible(body.value);
      TrimmedEmptyIff(NormalizeBodyText(body.value));
      VisibleEmptyIff(body.value);
    }
  }

  /**
   * The body text is used exactly when the article text is blank; otherwise
   * the normalised article text is returned as it is. Either way the text is
   * trimmed and holds no three consecutive line feeds, and it is empty only
   * when both sources are blank.
   */
  lemma SelectTextFallback(x: Extraction)
    ensures ArticleTextBlank(x.article) ==> SelectText(x) == BodyText(x.bodyText)
    ensures !ArticleTextBlank(x.article) ==> SelectText(x) == NormalizeArticleText(x.article.value.textContent.value)
    ensures SelectText(x) == [] <==> ArticleTextBlank(x.article) && (x.bodyText.None? || AllWhitespace(x.bodyText.value))
    ensures Trimmed(SelectText(x)) && NoTripleLineFeed(SelectText(x))
  {
    ArticleTextEmptyIff(x.article);
    BodyTextEmptyIff(x.bodyText);
    if x.article.Some? && x.article.value.textContent.Some? {
      NormalizeArticleTextClean(x.article.value.textContent.value);
    }
    if x.bodyText.Some? {
      var b := x.bodyText.value;
      CollapseNoTriple(CollapseWsBeforeNewline(b));
      TrimKeepsNoTriple(CollapseNewlines(CollapseWsBeforeNewline(b)));
      NormalizeBodyTextClean(b);
    }
  }

  // ---------------------------------------------------------------------------
  // The handler's outcomes

  /** Without a non-empty `url` the answer is always 400 "Missing url parameter", whatever a fetch would give. */
  lemma MissingUrlRejected(query: Option<JsString>, fetched: Outcome<Page>, parse: (JsString, JsString) -> Outcome<Extraction>)
    requires !Truthy(query)
    ensures Respond(query, fetched, parse) == Failure(400, MissingUrlMessage)
  {
  }

  /**
   * A non-empty URL that starts with `http://` or `file:` (any ASCII case) or
   * holds `@` anywhere is answered 400 "URL scheme not allowed.", whatever a
   * fetch would give.
   */
  lemma BlockedUrlRejected(query: Option<JsString>, fetched: Outcome<Page>, parse: (JsString, JsString) -> Outcome<Extraction>)
    requires Truthy(query)
    requires || StartsWithIgnoringCase(query.value, HttpPrefix)
             || StartsWithIgnoringCase(query.value, FilePrefix)
             || AtSign in query.value
    ensures Respond(query, fetched, parse) == Failure(400, SchemeNotAllowedMessage)
  {
    IsBlockedIff(query.value);
  }

  /** The answer is 400 exactly when the URL is missing, empty or refused by the blocklist. */
  lemma RejectedIff(query: Option<JsString>, fetched: Outcome<Page>, parse: (JsString, JsString) -> Outcome<Extraction>)
    ensures HttpStatus(Respond(query, fetched, parse)) == 400 <==>
      || !Truthy(query)
      || StartsWithIgnoringCase(query.value, HttpPrefix)
      || StartsWithIgnoringCase(query.value, FilePrefix)
      || AtSign in query.value
  {
    if Truthy(query) {
      IsBlockedIff(query.value);
    }
  }

  /** A throw in the fetch or in parsing is answered 500 with the error's string form. */
  lemma ThrownIsServerError(query: Option<JsString>, fetched: Outcome<Page>, parse: (JsString, JsString) -> Outcome<Extraction>)
    requires Truthy(query) && !IsBlocked(query.value)
    requires fetched.Threw? || parse(fetched.value.html, query.value).Threw?
    ensures Respond(query, fetched, parse) ==
      Failure(500, if fetched.Threw? then fetched.error else parse(fetched.value.html, query.value).error)
  {
  }

  /**
   * The answer is a success exactly when the URL passed the checks and
   * neither the fetch nor the parse threw. Then it echoes the URL and the
   * upstream status, carries the full selected title, and its text is the
   * selected text cut to at most 250000 code units: a prefix of it, all of it
   * when it fits, never starting with whitespace and never holding three
   * consecutive line feeds.
   */
  lemma SuccessResponse(query: Option<JsString>, fetched: Outcome<Page>, parse: (JsString, JsString) -> Outcome<Extraction>)
    ensures Respond(query, fetched, parse).Success? <==>
      Truthy(query) && !IsBlocked(query.value) && fetched.Returned? && parse(fetched.value.html, query.value).Returned?
    ensures Respond(query, fetched, parse).Success? ==>
      var r := Respond(query, fetched, parse);
      var x := parse(fetched.value.html, query.value).value;
      && r.url == query.value
      && r.status == fetched.value.status
      && r.title == SelectTitle(x.article, x.documentTitle)
      && r.text == Truncate(SelectText(x))
      && |r.text| <= MaxTextLength
      && r.text == SelectText(x)[..|r.text|]
      && (|SelectText(x)| <= MaxTextLength ==> r.text == SelectText(x))
      && (|SelectText(x)| > MaxTextLength ==> |r.text| == MaxTextLength)
      && (r.text == [] || !IsWhitespace(r.text[0]))
      && NoTripleLineFeed(r.text)
  {
    var r := Respond(query, fetched, parse);
    if r.Success? {
      var x := parse(fetched.value.html, query.value).value;
      var text := SelectText(x);
      SelectTextFallback(x);
      NoTripleSlice(text, 0, |r.text|);
    }
  }
}
