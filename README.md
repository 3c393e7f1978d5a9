# Paper-Pop backend: invitation renderer and PDF handler

A Dafny model of the core of the Paper-Pop backend (`index.js`): the HTTP
handler `POST /generate-pdf` that picks one of three invitation templates
(`birthday`, `event`, `kwibuka`) by `templateId`, inlines the server's image
assets as `data:` URIs, renders the page by string substitution, prints it to
PDF in a headless browser and answers with the PDF in base64.

Files and modules:

- `wrappers.dfy` (`Wrappers`): `Option` and `Result`; a `Result` error is the
  message of what JavaScript would throw.
- `js_text.dfy` (`JsText`): `String.prototype.trim`, with the exact set of
  code points ECMAScript calls WhiteSpace and LineTerminator, and the proof
  that trimming has one and only one answer.
- `layout.dfy` (`Layout`): a template literal as fixed segments with values
  spliced between them, and the proof that each value lands, verbatim, at a
  known offset.
- `kwibuka_date.dfy` (`KwibukaDate`): the date line of the Kwibuka card:
  `date.split(/[/\-.]/)`, each part trimmed in a span, the separator span
  `<span class="date-separator">/</span>` between consecutive parts, joined.
- `templates.dfy` (`Templates`): the three renderers and the weekday label of
  the event card.
- `handler.dfy` (`Handler`): the dispatch on `templateId`, the asset table,
  data URIs, asset loading, the response, and `Handle`, the specification of
  one request: its response, the files it reads, whether it launches a
  browser, the pages it tries to print and whether it leaves a browser
  running.
- `server.dfy` (`Server`): the handler as the code runs it, a method over a
  `Host` object that stands for the file system and the browser, proved to do
  what `Handle` says.

Behaviour of the handler worth knowing:

- The browser is closed only after a successful print (`index.js:602`).
  When `setContent` or `page.pdf` throws, the catch at `index.js:616-618`
  answers 500 and the browser stays running. `Handle` records this as
  `leaked`.
- `browser.close()` can itself reject. The same catch then answers 500
  with its message, and the browser counts as still running.
- The date of the Kwibuka card splits into as many groups as it has
  delimiters plus one; an empty date is one empty group.
- The success body's field is `pdfBase64`.
- A missing field renders as the text `undefined`, except `date` on the
  Kwibuka card: `undefined.split` throws, so the request fails with 500
  after all three assets have been read.
- `IMENA.png` is read for every Kwibuka request though the template never
  uses it; if it is missing the request fails.

The renderers are Dafny functions, so equal inputs give equal pages by
construction; no lemma is needed for that.

## Model

| member | source | states |
|---|---|---|
| `JsText.Trim` | index.js:305 | `part.trim()` leaves a slice of the part with only white space (ECMAScript WhiteSpace and LineTerminator) removed around it and no white space at either end |
| `JsText.TrimUnique` | index.js:305 | any slice with only white space around it and none at its ends is the trimmed part: trimming has exactly one result |
| `KwibukaDate.Split` | index.js:302 | splitting on `/`, `-` or `.` gives one group more than there are delimiters, and no group contains a delimiter |
| `KwibukaDate.SplitRoundTrip` | index.js:302 | the groups with the delimiters between them give back the input: the groups are the substrings between delimiters, in order |
| `KwibukaDate.SplitUnique` | index.js:302 | any cut of the date into delimiter-free groups at delimiter characters is the split's: adjacent delimiters give empty groups, no delimiter gives one group |
| `KwibukaDate.SplitIgnoresDelimiterKind` | index.js:302 | writing every `-` or `.` as `/` leaves the groups, and so the rendered date line, unchanged |
| `KwibukaDate.FormatDate` | index.js:301-313 | the date line: the date split on `/`, `-` or `.`, each group trimmed inside a span, a separator span after every group but the last, the pieces joined with nothing between them |
| `KwibukaDate.Piece` | index.js:304-310 | the `map` callback for part `i` of `arr`: a line break and 18 spaces, the trimmed part in a span, a line break and 18 spaces, the separator span when `i < arr.length - 1` and nothing otherwise, then a line break and 16 spaces |
| `KwibukaDate.DateLineJoinsPieces` | index.js:302-313 | the date line is the `map` of each group to its piece followed by `join("")`: piece `i` trimmed in a span, with the separator exactly when `i` is not the last index |
| `KwibukaDate.DateLayout` | index.js:301-313 | the date line is a fixed skeleton with n - 1 separator spans, one between each consecutive pair of groups and none after the last, filled with the trimmed groups in input order |
| `KwibukaDate.ThreeGroups` | index.js:302 | `07/04/1994` splits into `07`, `04`, `1994` |
| `KwibukaDate.SingleGroup` | index.js:301-313 | a date without delimiter is one group, rendered as one span with no separator |
| `Layout.FillAt` | index.js:28-141 | in a template literal every substituted value appears unchanged, unescaped, at the offset after the segments and values before it |
| `Templates.Field` | index.js:26 | a destructured field the request did not send is `undefined`, and a template literal renders it as the text `undefined` |
| `Templates.Birthday` | index.js:25-142 | the birthday page: the template literal with the background, logo, photo, name and message spliced in, in that order |
| `Templates.BirthdayVerbatim` | index.js:25-142 | the birthday page holds the background and logo URIs, the photo, the name and the message verbatim in their places |
| `Templates.BirthdayReadsOnlyItsFields` | index.js:26 | the birthday page depends on its five fields only |
| `Templates.WeekdayLabel` | index.js:334-343 | the weekday label is a weekday name; it is the parsed date's weekday when `eventDay` parses, and it is "Saturday" exactly when parsing fails or the date is a Saturday |
| `Templates.EventWeekday` | index.js:336-338 | `new Date(eventDay)` checked with `isNaN(getTime())`: the weekday when `eventDay` is present and parses, nothing otherwise; an absent `eventDay` is an invalid date |
| `Templates.WeekdayNameRoundTrip` | index.js:339 | the seven `en-US` long weekday names are distinct and name their weekday |
| `Templates.Event` | index.js:324-501 | the event page: the template literal with the background, logo, host family, weekday label, event day, event date and location spliced in, in that order |
| `Templates.EventVerbatim` | index.js:324-501 | the event page holds the background, logo and host family, then the weekday label (the parsed weekday or "Saturday"), then the event day, event date and location, each verbatim and unescaped at its hole |
| `Templates.Kwibuka` | index.js:144-323 | the Kwibuka page: without `date` the TypeError of `undefined.split`; otherwise the template literal with the background, icon, years, formatted date line and venue spliced in |
| `Templates.KwibukaVerbatim` | index.js:144-323 | with a `date` the Kwibuka page is rendered, and it holds the background, icon and years, then the date line formatted from `date`, then the venue, each verbatim and unescaped at its hole |
| `Templates.KwibukaPageAt` | index.js:144-323 | whatever date line is spliced in, each value of the Kwibuka page lands verbatim at its hole |
| `Handler.ParseTemplateId` | index.js:514-576 | exactly the strings `birthday`, `event` and `kwibuka` select a template, each its own |
| `Handler.TemplateName` | index.js:613 | the `templateId` of each template, which also names the file `<templateId>-invitation.pdf` |
| `Handler.AssetsFor` | index.js:514-573 | the asset table: per template, the field name, file name and MIME type of each image, in the order the branch reads them |
| `Handler.DataUri` | index.js:528 | an asset URI is `data:`, the MIME type, `;base64,` and the file's base64 text, each recoverable from its place |
| `Handler.ReadResult` | index.js:516-519 | `fs.readFileSync(file, "base64")`: the file's base64 text, or the missing-file error when it is not there |
| `Handler.AssetMimeFollowsExtension` | index.js:569-571 | every asset URI is `image/png` for a `.png` file and `image/jpeg` for the one `.jpeg` file, `kwibuka-bg.jpeg` |
| `Handler.MissingFileError` | index.js:516-519 | reading a missing file throws with a non-empty message |
| `Handler.LoadAssets` | index.js:515-571 | loading the assets succeeds exactly when every file is there |
| `Handler.LoadedUris` | index.js:526-572 | then each asset's field holds the data URI of its file with its MIME type, and there are no other asset fields |
| `Handler.LoadFailsAtFirstMissing` | index.js:514-571 | otherwise loading fails with the error of the first missing file |
| `Handler.AssetReadsInOrder` | index.js:514-566 | the files are read in the template's order, all of them, or up to and including the first missing one |
| `Handler.ServerAssetsWin` | index.js:526-572 | in the spread `{...data, assets}` the server's URIs replace whatever the caller sent under those names; every other field is the caller's |
| `Handler.Render` | index.js:526-572 | the renderer `templateId` selects, applied to the request with the loaded asset URIs spread over it |
| `Handler.Page` | index.js:514-573 | the page of one request: load the template's assets, stop at the first missing one, otherwise render |
| `Handler.BirthdayLoads` | index.js:514-531 | a birthday page reads `background.png`, then `birthday logo.png`, stops at the first missing one with its error, and otherwise renders with both URIs under `birthdayBg` and `birthdayLogo` |
| `Handler.EventLoads` | index.js:532-548 | an event page reads `event-bg.png`, then `event-logo.png`, stops at the first missing one with its error, and otherwise renders with both URIs under `eventBg` and `eventLogo` |
| `Handler.ThreeAssetPage` | index.js:549-573 | a Kwibuka page reads `IMENA.png`, `kwibuka.png`, `kwibuka-bg.jpeg` in that order, stops at the first missing one with its error, and otherwise renders with the three URIs |
| `Handler.Response` | index.js:575-618 | the three answers: `{ success, pdfBase64, filename }`, the `Invalid templateId` error, and the `Failed to generate PDF` error with the thrown message as `details` |
| `Handler.Status` | index.js:575-618 | 200 for the PDF, 400 for an unknown `templateId`, 500 for anything thrown |
| `Handler.ErrorField` | index.js:575-618 | the `error` field: `Invalid templateId` for the 400, `Failed to generate PDF` for the 500, none for the 200 |
| `Handler.Handle` | index.js:505-620 | one request from start to end: its response (200, 400 or 500 with the thrown message), the files it reads in order, whether it calls `puppeteer.launch` (exactly when the page rendered), the page it tries to print and whether a browser is left running |
| `Handler.InvalidTemplateRejected` | index.js:574-576 | the answer is 400 `Invalid templateId` exactly when `templateId` is missing or not one of the three names, and then no file is read, no browser is launched and no page is printed |
| `Handler.GeneratedShape` | index.js:578-614 | a 200 follows reading every asset of the template, printing the one rendered page and closing the browser without error; its filename is `templateId` + `-invitation.pdf` and its payload the encoded PDF; one browser was launched and none is left running |
| `Handler.MissingAssetFails` | index.js:616-618 | a missing asset gives 500 `Failed to generate PDF` with the first missing file's message as details; no browser is launched and no page is printed |
| `Handler.KwibukaWithoutDateFails` | index.js:549-573 | a Kwibuka request without `date` reads the three images and then fails with the TypeError; no browser is launched, no page is printed and none is left running |
| `Handler.FailureAfterLaunchLeaks` | index.js:578-618 | every failure is a 500 with the thrown message; a browser is left running exactly when, after a successful launch, printing failed or closing the browser was rejected, and the 500 then carries that message |
| `Server.Host.ReadFile` | index.js:516-519 | a file read returns the file's base64 text or the missing-file error, and is recorded |
| `Server.Host.Launch` | index.js:579-589 | every launch attempt is counted, and yields a running browser or the thrown message |
| `Server.Host.PrintToPdf` | index.js:592-600 | the page is recorded as one the handler tried to print, and the PDF bytes or the message thrown by `newPage`, `setViewport`, `setContent` or `pdf` come back |
| `Server.Host.Close` | index.js:602 | closing either stops one running browser, or rejects with a message and leaves the browser running |
| `Server.BirthdayPage` | index.js:514-531 | the birthday branch reads `background.png` then `birthday logo.png` and renders, as `Handle` says |
| `Server.EventPage` | index.js:532-548 | the event branch reads `event-bg.png` then `event-logo.png` and renders, as `Handle` says |
| `Server.KwibukaPage` | index.js:549-573 | the Kwibuka branch reads `IMENA.png`, `kwibuka.png`, `kwibuka-bg.jpeg` and renders, as `Handle` says |
| `Server.GeneratePdf` | index.js:505-620 | the handler's response, files read, launch attempts, pages it tried to print and browsers left running are those of `Handle`, a rejected close included; an unknown `templateId` changes nothing |

## Left out

- Express setup, CORS, the request logger, the 50 MB body limit, `GET /health` and `app.listen`: framework plumbing with no decision in it.
- Logging (`console.log`, `console.error`): no effect on the response.
- The file system: the files under `public/` are a map from file name to base64 text. Node's own error text names the absolute path; the model's message names the file only.
- Handler.ReadResult: every file that cannot be read is modelled as missing and fails with the `ENOENT` message; a file that exists but cannot be read (a permission error, a directory under that name) and its own error message are not represented, because the file map only says whether a file is there.
- Server.Host.ReadFile: as for `Handler.ReadResult`, an unreadable file counts as a missing one, with the `ENOENT` message.
- Request strings are sequences of Unicode code points, so a JSON string holding a lone UTF-16 surrogate cannot be represented; on every string that can be, splitting and trimming agree with JavaScript.
- Base64 encoding of the PDF bytes: a function parameter of the handler.
- The headless browser: launch outcome, the print result per page and whether closing rejects are given by the `Host`. Viewport size, A4 format, background printing, `networkidle2` and the disabled timeouts are not modelled, so neither is a render that never finishes.
- `new Date(eventDay)` and `toLocaleDateString("en-US", { weekday: "long" })`: a parser parameter that gives a weekday or nothing. An absent `eventDay` is taken as an invalid date.
- The style sheets and static markup of the three templates: abbreviated in the segment constants; only the markup next to each substitution is kept. It carries no behaviour.
- Request fields are strings. JSON numbers, booleans, arrays or objects in the body, and their JavaScript string conversion, are not modelled.
- The `stack` field of the 500 body: not modelled; `details` is the thrown message.
- Concurrency between requests: every request has its own `Host` state in the model.
