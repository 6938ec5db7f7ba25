# VA Starter Track proposal tracker: the logic under the pages

The service has two halves.

- **Server** (`src/server.js`): an Express app.
  - It receives profile webhooks.
  - It keeps the latest record per client identifier in an in-memory `RECORDS` map.
  - It renders an overview page for an identifier.
- **Embed script** (`src/embed.js`): runs in the client portal.
  - It finds the client identifier on the page.
  - It posts `view` and `click` events to the service.
  - It turns clicks on `[data-url]` / `[data-path]` elements into navigations: a `data-url` click goes to that URL, a `data-path` click goes to that path under the client's page.

This project models the decision logic of both halves.

| module (file) | what it holds |
|---|---|
| `Wrappers` (`wrappers.dfy`) | `Option`. |
| `JsCore` (`js_core.dfy`) | The JavaScript semantics the code relies on: a small value type with truthiness and `\|\|`, `String(v)` for those values, `filter(Boolean).join(' ')` on two elements, `trim` with the ECMAScript white-space set, and `slice(0, n)`. |
| `UriEncoding` (`uri_encoding.dfy`) | `encodeURIComponent`: the unreserved set, UTF-8 bytes and `%XX` with upper-case hex. |
| `HtmlEscape` (`html_escape.dfy`) | `escapeHtml` as the chain of five global replacements the source writes, `&` first. Also a reference "escape each character" function and an entity decoder, used to state its properties. |
| `Server` (`server.dfy`) | Resolving the webhook payload (alias lists, `null` fallbacks, display name). The `RECORDS` store as a class `RecordStore` with a `map<string, Record>` field: `Webhook` is a method that updates it, `Overview` a function that reads it. Also the overview's status choice and field fallbacks. |
| `Embed` (`embed.dfy`) | `getRailwayOrigin`, `getClientUID`, `buildBase`, `normalizePath` and the click decision of `onNavClick`, as functions. The browser state `init` and the click listener change (`window.Lentax`, the posted events, `location.href`, the bound listener) as the fields of a class `Page`. |

Inputs that come from outside the code are parameters:
- the time stamp (`new Date().toISOString()`);
- the random event id (`crypto.randomBytes(4)`);
- the DOM attributes the embed reads, as `Option<string>`: `None` is a missing element or attribute.

## Model

| member | source | states |
|---|---|---|
| `JsCore.FalsyValues` | src/server.js:50-56 | The falsy values are exactly `undefined`, `null`, `false`, `0` and `""`; every other value is truthy. |
| `JsCore.Or` | src/server.js:50-56 | `a \|\| b` is `a` when `a` is truthy, `b` otherwise; the result is truthy iff either operand is. |
| `JsCore.ToJsString` | src/server.js:73 | `String(v)` is empty exactly for the empty string, and a string stays as it is. |
| `JsCore.NumToStringInjective` | src/server.js:73 | Distinct numeric identifiers give distinct `String(uid)` store keys. |
| `JsCore.DecimalRoundTrip` | src/server.js:73 | The decimal digits `String` writes for a number read back as that number. |
| `JsCore.FilterTruthy` | src/server.js:71 | `filter(Boolean)` keeps only truthy elements, is never longer than its input, and is empty iff no element is truthy. |
| `JsCore.Join` | src/server.js:71 | `join(sep)` of an empty list is `""`; otherwise it starts with the first element, followed by the separator when there is more than one. |
| `JsCore.FilterPair` | src/server.js:71 | `[a, b].filter(Boolean)` is `a` if truthy followed by `b` if truthy, in that order. |
| `JsCore.JoinPair` | src/server.js:71 | `[a, b].join(sep)` is `String(a) + sep + String(b)` (with `null`/`undefined` as empty). |
| `JsCore.JoinTruthy` | src/server.js:71 | `[a, b].filter(Boolean).join(' ')` is empty iff both are falsy, is the one truthy operand alone, or is both joined by a single space. |
| `JsCore.Trim` | src/server.js:88 | `trim` leaves no white space at either end, never lengthens, and is empty iff the input is all white space. |
| `JsCore.TrimSpec` | src/server.js:88 | `trim` returns the slice left after cutting white space at both ends; the result has none at either end; it is empty iff the input is all white space. |
| `JsCore.TrimStartSpec` | src/embed.js:26 | The leading-white-space cut gives the longest suffix that does not start with white space. |
| `JsCore.TrimEndSpec` | src/embed.js:26 | The trailing-white-space cut gives the longest prefix that does not end with white space. |
| `JsCore.TrimIdempotent` | src/embed.js:73 | Trimming twice is trimming once. |
| `JsCore.SliceTo` | src/embed.js:86 | `slice(0, n)` is a prefix of its input, of length `min(len, n)`. |
| `HtmlEscape.ReplaceAll` | src/server.js:27-31 | A global one-character replacement by a one-character string keeps the length. |
| `HtmlEscape.ReplaceAllSingle` | src/server.js:27-31 | On one character the replacement gives `rep` when it is the pattern and the character itself otherwise; with `ReplaceAllConcat` this fixes the result on every string. |
| `HtmlEscape.ReplaceAllAbsent` | src/server.js:27-31 | Replacing a character that does not occur changes nothing. |
| `HtmlEscape.ReplaceAllKeepsOut` | src/server.js:27-31 | A character absent from the replacement is absent from the output when it is the one replaced or was absent from the input. |
| `HtmlEscape.ReplaceAllConcat` | src/server.js:27-31 | A global replacement distributes over concatenation. |
| `HtmlEscape.LastStepsMarkupFree` | src/server.js:28-31 | After the `<`, `>`, `"` and `'` steps none of those four characters is left, whatever the text was. |
| `HtmlEscape.EscapeHtml` | src/server.js:24-32 | The result of the chain has no `<`, `>`, `"` or `'`. |
| `HtmlEscape.EscapeHtmlSafe` | src/server.js:24-32 | The output has no `<`, `>`, `"` or `'`, and every `&` in it starts one of `&amp;`, `&lt;`, `&gt;`, `&quot;`, `&#39;`. |
| `HtmlEscape.EscapeHtmlIsPerChar` | src/server.js:26-31 | The five-step chain equals escaping each character independently, because `&` is replaced first. |
| `HtmlEscape.EscapeHtmlChar` | src/server.js:27-31 | A one-character string escapes to that character's entity, or to itself when it is not special. |
| `HtmlEscape.UnescapeEscapeHtml` | src/server.js:26-31 | Decoding the five entities in `escapeHtml(s)` gives back `s`. |
| `HtmlEscape.EscapeHtmlPlain` | src/server.js:24-32 | A string with none of `& < > " '` is returned unchanged. |
| `HtmlEscape.EscapeHtmlConcat` | src/server.js:26-31 | Escaping distributes over concatenation. |
| `HtmlEscape.AmpersandLastDoubleEscapes` | src/server.js:27-28 | Why the order matters: with `&` replaced after `<`, `<` would become `&amp;lt;`, which decodes to `&lt;`, not `<`. |
| `UriEncoding.Utf8` | src/embed.js:68 | A code point's UTF-8 encoding has one to four bytes; it is a single byte exactly below 0x80; its continuation bytes lie in 0x80..0xBF. |
| `UriEncoding.Utf8RoundTrip` | src/embed.js:68 | Decoding those bytes gives back the code point. |
| `UriEncoding.HexDigit` | src/embed.js:68 | A value below 16 becomes an upper-case hex digit whose value it is. |
| `UriEncoding.PercentEncode` | src/embed.js:68 | The output is three characters per byte, all URI-safe. |
| `UriEncoding.PercentEncodeAt` | src/embed.js:68 | The triple at position `3i` is `%` followed by two hex digits whose value is byte `i`. |
| `UriEncoding.EncodeChar` | src/embed.js:68 | One character encodes to at least one URI-safe character. |
| `UriEncoding.EncodeURIComponent` | src/embed.js:68 | The encoding is empty iff the input is, and starts with the encoding of the first character. |
| `UriEncoding.EncodeURIComponentSafe` | src/embed.js:68 | `encodeURIComponent` output consists of unreserved characters and `%` only, and is never shorter than its input. |
| `UriEncoding.EncodedHasNoDelimiters` | src/embed.js:68 | The encoded identifier has no `/`, `?` or `#`. |
| `UriEncoding.EncodeUnreservedIdentity` | src/embed.js:68 | A string of unreserved characters is encoded as itself. |
| `Server.FirstTruthy` | src/server.js:64-68 | A chain `body.k0 \|\| body.k1 \|\| …` yields a truthy value, and yields nothing exactly when every alias is falsy. |
| `Server.FirstTruthyIsEarliest` | src/server.js:50-56 | The first truthy alias in list order is the one chosen. |
| `Server.FirstTruthyHasPosition` | src/server.js:50-56 | Any value chosen comes from some alias with only falsy aliases before it. |
| `Server.ResolveUid` | src/server.js:50-58 | No uid exactly when all six aliases are falsy; a truthy `uid` wins; a uid found is truthy. |
| `Server.UidPrecedence` | src/server.js:50-56 | The uid is the first truthy of `uid`, `UID`, `record_uid`, `recordUID`, `recordId`, `id`, in that order. |
| `Server.NameOr` | src/server.js:69-72 | Display name: `name` if truthy, else the truthy first/last names joined by a space, else the fallback. |
| `Server.NormalizeRecord` | src/server.js:63-75 | Each field is its first truthy alias or `null`. `name` follows the rule above with `null` as the fallback. `uid` is the key and `updatedAt` the time stamp. Every optional field is truthy or `null`. |
| `Server.ViewOf` | src/server.js:99-108 | Overview fallbacks: name, then first+last, then `'Unknown'`; email, then `'N/A'`; background, then empty; avatar, then the fixed default picture; update stamp, then the current time. Name, email and avatar are never empty. |
| `Server.ViewShowsPayload` | src/server.js:63-108 | The overview of a freshly ingested payload shows the payload's own name (or, without one, its first and last names joined), email, background, avatar and time stamp when it had them, and the fixed fallbacks when it did not. |
| `Server.InterpolatedText` | src/server.js:195-210 | All seven interpolated values pass through `escapeHtml`: none can open a tag or end an attribute, and each decodes back to the field shown. |
| `Server.EscapeFields` | src/server.js:195-210 | Escaping a list of values keeps its length; each result is markup-free and decodes to its input. |
| `Server.RecordStore.Webhook` | src/server.js:44-80 | With no truthy alias: reply 400 `Missing uid`, store unchanged. Otherwise: reply 200 with `String(uid)`; `RECORDS[String(uid)]` becomes the new record, whose `uid` equals the key; every other key is untouched (last write wins). |
| `Server.RecordStore.Overview` | src/server.js:87-104 | 400 with text `Missing uid` iff the trimmed parameter is empty; 404 with text `No record found for this uid (in-memory storage).` iff it is non-empty and absent from the store; 200 otherwise, showing that record with the fallbacks. |
| `Server.WebhookThenOverview` | src/server.js:44-108 | A webhook followed on a fresh store by an overview of any requested uid. After a rejected payload no request yields a page. After an accepted one, a request yields a page iff its trimmed uid is the reported key, and that page shows exactly the stored record. So a padded key is never shown, and an unpadded key is shown when requested as it is. |
| `Embed.StripTrailingSlashes` | src/embed.js:18 | `replace(/\/+$/, "")` keeps a prefix of the input, never ends in `/`, and removes only `/` characters. |
| `Embed.RailwayOrigin` | src/embed.js:15-19 | The origin never ends in `/`. Without an override it is the production URL. With one it is the override minus its trailing slashes. |
| `Embed.RailwayOriginStable` | src/embed.js:113-123 | Feeding a non-empty computed origin back in as `window.Lentax.railwayOrigin`, as `init` does, gives the same origin. |
| `Embed.SlashOnlyOverride` | src/embed.js:16-18 | An override of `/` yields the empty origin, not the production URL, because the fallback is chosen before stripping. |
| `Embed.ClientUID` | src/embed.js:21-42 | The identifier is the trimmed value of the first usable source: the meta element, then any `[data-clientuid]`, then `window.Lentax.clientUID`. It is empty iff none is usable, and it has no white space at either end. |
| `Embed.BuildBase` | src/embed.js:67-69 | `origin + "/va-starter-track/p/" + encodeURIComponent(uid)`, with no `/` after the prefix. |
| `Embed.BuildBasePlain` | src/embed.js:67-69 | An identifier of unreserved characters appears in the URL literally. |
| `Embed.NormalizePath` | src/embed.js:71-77 | `""` for a missing or blank path. Otherwise the trimmed path, with `/` added in front only when it did not start with one. A non-empty result starts with `/` and is trimmed. |
| `Embed.NormalizePathIdempotent` | src/embed.js:71-77 | Normalising a normalised path changes nothing. |
| `Embed.PathStaysUnderClient` | src/embed.js:101-109 | Whatever `data-path` holds, the URL string assigned to `location.href` starts with the client's page prefix, and the path segment after it is the encoded identifier. |
| `Embed.LabelSource` | src/embed.js:85 | The label source is a non-empty `data-label`, else the text content; it is empty iff both are. |
| `Embed.ClickLabel` | src/embed.js:85-86 | The label is a prefix of the trimmed `data-label` or text content: the whole of it when it fits in 120 characters, otherwise exactly its first 120. |
| `Embed.DecideClick` | src/embed.js:79-110 | No target: ignore. A usable `data-url` wins: navigate to the trimmed URL, and the event carries `url`. Otherwise a non-empty normalised path: navigate to `buildBase + path`, and the event carries `path`. Otherwise ignore, with no event. The payload carries the client uid and the label. |
| `Embed.EventUrl` | src/embed.js:53 | The event URL is the origin and `/va-starter-track/e/` followed by the encoded event name, which holds no `/`, `?` or `#`. |
| `Embed.EventUrls` | src/embed.js:52-53 | The event URLs are `origin + "/va-starter-track/e/view"` and `origin + "/va-starter-track/e/click"`. |
| `Embed.Page.Init` | src/embed.js:112-133 | Without a client uid nothing changes and no listener is bound. Otherwise `window.Lentax` gets the uid and origin, one `view` event with page `proposal` is posted, and the listener is bound with that origin and uid. |
| `Embed.Page.Click` | src/embed.js:79-110 | A click does nothing before a listener is bound. Otherwise it follows `DecideClick`: if the click is followed, one `click` event is posted, `location.href` is set and the default is prevented; if it is ignored, nothing changes. |
| `Embed.NoUidNoRouting` | src/embed.js:116-119 | On a page where no source gives a usable client uid (meta element, any `[data-clientuid]`, `window.Lentax.clientUID`), `init` followed by a click posts nothing, does not navigate and does not prevent the default. |

## Left out

- Express wiring: JSON body parsing, the 2 MB limit, the health route, `app.listen` and the 500 catch path. These are framework and I/O. `req.body || {}` is modelled: a missing body reads as the empty payload.
- The HTML/CSS template and the inline cascade and navigation scripts of the overview page. The page is represented only by the seven values it interpolates through `escapeHtml`.
- Clock and randomness: `new Date().toISOString()` and `crypto.randomBytes(4).toString('hex')` are parameters (`now`, `later`, `eventId`).
- The `String(input ?? '')` coercion inside `escapeHtml`: the model's `EscapeHtml` takes a string. The call sites can pass non-strings (a payload with `name: 42` gives `escapeHtml(42)`); the model applies that coercion before escaping, as `ToJsString` inside `Server.ViewOf`, for the values it represents.
- `fetch`, `JSON.stringify` and its `"{}"` fallback: a posted event is recorded as an `Event` value (URL and body). Network failures are swallowed by the script, so they have no visible effect.
- The DOM. `getElementById`, `querySelector`, `getAttribute` and `closest` arrive as `Option<string>` inputs and a `NavTarget`. `addEventListener` is the `listener` field of `Page`. `preventDefault` is `Click`'s result. `window.location.href` is the `href` field.
- The choice between `DOMContentLoaded` and running `init` at once: `Init` is called once, on a page with no bound listener.
- `JsCore.ToJsString`: numbers are unbounded integers. JavaScript numbers are doubles. From `1e21` up, `String()` writes exponent form, and integers beyond 2^53 are rounded when the JSON is parsed. So in the program two large distinct identifiers can share one `RECORDS` key. In the model they cannot: `JsCore.NumToStringInjective` holds only for the unbounded integers modelled.
- Browser URL resolution: `Embed.PathStaysUnderClient` is about the string assigned to `location.href`. The browser then removes `.` and `..` segments, including `%2e%2e`. So `data-path="../../e/click"`, or a client identifier of `..`, can navigate outside the client's page. That resolution is not modelled.
- JavaScript values other than `undefined`, `null`, booleans, integers and strings. Objects, arrays and fractional numbers are not represented, so `String()` of those is not modelled.
- `window.Lentax` is reduced to its two properties `railwayOrigin` and `clientUID`.
- `Embed.ClickLabel`: `slice(0, 120)` counts UTF-16 code units in JavaScript, but the model counts Unicode code points. The two agree on text without astral-plane characters.
- Lone surrogates: a Dafny `char` is a Unicode scalar value, so a string holding a lone surrogate is not representable in the model. In the script such a client identifier (say `"\uD800"`) makes `encodeURIComponent` throw a `URIError` inside `buildBase`. That happens on a `data-path` click after `preventDefault` and after the `click` event is posted, so the click is swallowed and nothing navigates. The model does not cover this.
- Trimmed lookup, untrimmed key: the code is followed as written. The webhook stores under the untrimmed `String(uid)`, while the overview looks up the trimmed route parameter. So a record whose identifier has surrounding white space can be stored but never shown. `Server.WebhookThenOverview` states this behaviour for any requested identifier; it is not corrected.
