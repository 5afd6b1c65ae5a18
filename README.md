# Scrape endpoint: verified model of the request checks and text shaping

`api/scrape.js` is a serverless handler for `GET /api/scrape?url=...`. It
fetches a page, gives the HTML to JSDOM and Mozilla Readability, and returns
`{url, title, text, status}` as JSON. This project models the logic the
handler itself contains, as pure Dafny functions over JavaScript strings
(sequences of UTF-16 code units):

- the request checks: a missing or empty `url` gets 400, and the blocklist
  `/^http:\/\/|^file:|@/i` also gets 400 (`Blocklist`);
- the title fallback `article?.title || document.title || ""`;
- the text normalisation. The blank-line collapse `/\n{3,}/g → "\n\n"` is
  in `Newlines`. The line-end cleanup `/\s+\n/g → "\n"` is in `LineEnds`.
  `trim()` is in `Trim`. Each regular-expression replace is written as the
  left-to-right scan that a global search performs;
- the fallback to the body text when the article text is empty, and the
  250000-code-unit cap;
- the response: `Scrape.Respond` maps (query, fetch outcome, parse outcome)
  to a response.

The fetch and the two libraries are outside code. The fetch is an input
value (`Outcome<Page>`: a status and a body, or a thrown error). JSDOM plus
Readability is an input function from (body, URL) to `Outcome<Extraction>`:
the optional article with its optional title and text, the optional document
title and the optional body text.

Facts the proofs bring out:

- The source comment on line 16 calls the filter an allowlist. The code is
  a blocklist, and the model follows the code. Only the first code units are
  checked for the two schemes. So a URL that starts with a space, or uses
  `ftp:` or `data:`, passes unless it holds `@`
  (`Blocklist.OnlyLeadingSchemeChecked`). A legitimate URL with `@` in its
  path is refused.
- `\s` matches `\n`. So on the fallback path `/\s+\n/` removes blank lines
  as well as trailing blanks. The `/\n{3,}/` replace that follows then never
  changes anything (`Scrape.BlankLineCollapseIsNoOp`).
- A success passes the upstream status through, 404 included, while the
  HTTP status is 200. The response carries no "truncated" flag.

Whitespace is the fixed ECMAScript set of WhiteSpace and LineTerminator
code points listed in `JsText.IsWhitespace`. Both `\s` and `trim` use that
set.

## Model

| member | source | states |
|---|---|---|
| `Blocklist.IsBlockedIff` | api/scrape.js:17-18 | The pattern matches exactly when the URL starts with `http://` or `file:` in any ASCII case, or holds `@` at any position. |
| `Blocklist.SearchFromIff` | api/scrape.js:18 | Past position 0 only the `@` alternative can match, because `^` anchors the two schemes to the start. |
| `Blocklist.HttpsAllowed` | api/scrape.js:17-18 | An `https://` URL in any case passes the filter when it holds no `@`. |
| `Blocklist.OnlyLeadingSchemeChecked` | api/scrape.js:17-18 | A URL whose first code unit is not `h`/`f` (any case) and that holds no `@` passes, whatever scheme follows. |
| `Newlines.CollapseNewlines` | api/scrape.js:41 | The blank-line collapse never lengthens the text. |
| `Newlines.CollapseLeadingLineFeeds` | api/scrape.js:41 | A leading run of n line feeds comes out as min(n, 2) line feeds. |
| `Newlines.CollapseLineFeedRun` | api/scrape.js:41 | A whole run of n line feeds, followed by text that does not continue it, comes out as exactly two line feeds when n is at least three and unchanged otherwise. The text after it is collapsed on its own. |
| `Newlines.CollapseNewlinesConcat` | api/scrape.js:41 | Cut anywhere the first part does not end in a line feed, the collapse of the whole is the collapse of each part, joined. With `CollapseLineFeedRun` this fixes the output run by run: every run of three or more line feeds becomes two, and everything else is kept. |
| `Newlines.CollapseNoTriple` | api/scrape.js:41 | The output holds no three consecutive line feeds. |
| `Newlines.CollapseNewlinesFixesClean` | api/scrape.js:41 | Text without three consecutive line feeds is returned unchanged. |
| `Newlines.CollapseNewlinesUnchangedIff` | api/scrape.js:41 | The collapse leaves its input unchanged exactly when that input has no three consecutive line feeds. |
| `Newlines.CollapseNewlinesIdempotent` | api/scrape.js:41 | Collapsing twice gives the same text as collapsing once. |
| `Newlines.CollapseKeepsOtherUnits` | api/scrape.js:41 | Every code unit other than a line feed is kept, in its original order. |
| `LineEnds.LastLineFeed` | api/scrape.js:49 | Gives the index of the last line feed before k, or -1 when there is none. |
| `LineEnds.MatchEnd` | api/scrape.js:49 | A match of `\s+\n` at the start lies inside the leading whitespace run, ends with a line feed and is at least two units long. |
| `LineEnds.MatchEndStopsAtLastLineFeed` | api/scrape.js:49 | A match ends at the last line feed of the leading whitespace run. When it does not match, that run holds no line feed past position 0. |
| `LineEnds.CollapseWsBeforeNewline` | api/scrape.js:49 | The line-end cleanup never lengthens the text. |
| `LineEnds.WsCollapseRun` | api/scrape.js:49 | A whole whitespace run, followed by text that does not continue it, is replaced up to and including its last line feed by one line feed, and the rest of the run is kept. This holds when that line feed is not the run's first unit; otherwise the run is kept as it is. The text after the run is cleaned on its own. |
| `LineEnds.WsCollapseConcat` | api/scrape.js:49 | Cut anywhere the first part does not end in whitespace, the cleanup of the whole is the cleanup of each part, joined. With `WsCollapseRun` this fixes the output run by run. |
| `LineEnds.WsCollapseHead` | api/scrape.js:49 | The output starts with a line feed exactly when the input's leading whitespace run holds one. |
| `LineEnds.CollapseNoWhitespaceBeforeLineFeed` | api/scrape.js:49 | After the cleanup no line feed directly follows a whitespace code unit. |
| `LineEnds.NoAdjacentLineFeeds` | api/scrape.js:49 | After the cleanup no two line feeds are adjacent. |
| `LineEnds.WsCollapseKeepsVisible` | api/scrape.js:49 | Every non-whitespace code unit is kept, in its original order. |
| `LineEnds.WsCollapseFixesClean` | api/scrape.js:49 | Text in which no line feed follows whitespace is returned unchanged. |
| `LineEnds.WsCollapseUnchangedIff` | api/scrape.js:49 | The cleanup leaves its input unchanged exactly when no line feed in it follows whitespace. |
| `LineEnds.WsCollapseIdempotent` | api/scrape.js:49 | Cleaning twice gives the same text as cleaning once. |
| `JsText.LeadingWhitespace` | api/scrape.js:42 | Gives the length of the leading whitespace run: all of it is whitespace, and the next code unit is not. |
| `Trim.TrimStart` | api/scrape.js:42 | Drops exactly the leading whitespace run. |
| `Trim.TrimEnd` | api/scrape.js:42 | Drops exactly the trailing whitespace: the result is a prefix that does not end in whitespace, and what is cut is all whitespace. |
| `Trim.Trim` | api/scrape.js:42 | The result is the stretch between the leading and the trailing whitespace, and it neither starts nor ends with whitespace. |
| `Trim.TrimFixesTrimmed` | api/scrape.js:42 | Text that neither starts nor ends with whitespace is left as it is. |
| `Trim.TrimIdempotent` | api/scrape.js:42 | Trimming twice gives the same text as trimming once. |
| `Trim.TrimKeepsVisible` | api/scrape.js:42 | Trimming removes whitespace only: every other code unit is kept, in order. |
| `Trim.TrimEmptyIff` | api/scrape.js:42 | The trimmed text is empty exactly when the input is all whitespace. |
| `Scrape.SelectTitle` | api/scrape.js:39 | The title is the article title when that is non-empty, else the document title when non-empty, else empty. It is empty only when both are missing or empty. |
| `Scrape.NormalizeArticleTextClean` | api/scrape.js:40-42 | The normalised article text is trimmed and holds no three consecutive line feeds. |
| `Scrape.NormalizeArticleTextKeepsVisible` | api/scrape.js:40-42 | Normalising the article text keeps every visible code unit, in order. |
| `Scrape.NormalizeArticleTextIdempotent` | api/scrape.js:40-42 | Normalising the article text twice gives the same text as normalising it once. |
| `Scrape.BlankLineCollapseIsNoOp` | api/scrape.js:49-50 | On the fallback path the blank-line collapse after the line-end cleanup never changes anything. |
| `Scrape.NormalizeBodyTextClean` | api/scrape.js:47-51 | The normalised body text equals the trimmed line-end cleanup. It is trimmed, and no line feed in it follows whitespace. |
| `Scrape.NormalizeBodyTextKeepsVisible` | api/scrape.js:47-51 | Normalising the body text keeps every visible code unit, in order. |
| `Scrape.NormalizeBodyTextIdempotent` | api/scrape.js:47-51 | Normalising the body text twice gives the same text as normalising it once. |
| `Scrape.ArticleTextEmptyIff` | api/scrape.js:40-42 | The article text is empty exactly when there is no article, no text, or text made only of whitespace. |
| `Scrape.BodyTextEmptyIff` | api/scrape.js:47-51 | The body text is empty exactly when there is no body or it is all whitespace. |
| `Scrape.SelectTextFallback` | api/scrape.js:45-52 | The body text is used exactly when the article text is blank. Otherwise the normalised article text is returned unchanged. The result is trimmed, has no three consecutive line feeds, and is empty only when both sources are blank. |
| `Scrape.Truncate` | api/scrape.js:57 | The result is at most 250000 code units and is a prefix of the input. It equals the input when the input fits, and is exactly 250000 long otherwise. |
| `Scrape.Respond` | api/scrape.js:9-63 | The HTTP status is 200 for a success and otherwise 400 or 500. It is 400 exactly when the URL is missing, empty or blocked, and 500 exactly when a checked URL's fetch or parse throws. A success echoes the URL and the upstream status. |
| `Scrape.MissingUrlRejected` | api/scrape.js:11-14 | A missing or empty `url` always gets 400 "Missing url parameter ?url=", whatever the fetch and the parse would give. |
| `Scrape.BlockedUrlRejected` | api/scrape.js:17-20 | A non-empty URL starting with `http://` or `file:` (any ASCII case), or holding `@`, always gets 400 "URL scheme not allowed.", whatever the fetch and the parse would give. |
| `Scrape.RejectedIff` | api/scrape.js:12-20 | The answer is 400 exactly when the URL is missing, is empty, or is refused by the blocklist. |
| `Scrape.ThrownIsServerError` | api/scrape.js:60-62 | When a checked URL's fetch or parse throws, the answer is 500 carrying that error's string form. |
| `Scrape.SuccessResponse` | api/scrape.js:54-59 | A success happens exactly when the URL passes the checks and neither the fetch nor the parse throws. It echoes the URL and the upstream status and carries the full selected title. Its text is `Truncate` of the selected text: a prefix of it that is all of it when it fits and exactly 250000 code units otherwise. The text does not start with whitespace and holds no three consecutive line feeds. |

## Left out

- The network fetch, its User-Agent and Accept-Language headers and redirect following (api/scrape.js:23-32): these are I/O. The model takes the fetch's result as an input: a status and a body, or a thrown error.
- JSDOM parsing and Readability extraction (api/scrape.js:35-37): these are outside libraries whose source is not part of this model. Their results are an input function from (body, URL) to an optional article, document title and body text, or a thrown error.
- Async/await, the `req`/`res` objects and JSON serialisation: these are runtime plumbing. The response is the `Response` datatype, and `String(err)` is the thrown error's text as given.
- A `url` parameter repeated in the query, which makes `req.query.url` an array, and non-string article fields: the model takes the query value and the article fields as optional strings.
- The whitespace set is the one listed in `JsText.IsWhitespace`. A later Unicode version that adds space separators would widen JavaScript's set but not this one.
