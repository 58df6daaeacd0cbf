# Server-Backend: DocuSign send path, send log and Brightpearl order search

This project models the data-handling core of an Express server. The server
sends mockup PDFs to DocuSign for signature, keeps a log of the sends, and
lists Brightpearl orders that need a proof. The model covers:

- **Envelope builder** (`DocuSignService.BuildEnvelope`). One document and
  one signer, plus two tabs per requested position: a required sign-here tab
  labelled `Logo_Approval_{i+1}` and an optional initial tab `Initial_{i+1}`
  150 units to its right.
- **Send handler** (`SendToDocuSign`). Request validation, the rule that
  `signaturePositions` wins over `logoPositions`, the `|| 1` / `|| 100`
  coordinate defaults, calling DocuSign, and building the log entry.
  `SendToDocuSign.Send` then records that entry in the JSON log file.
- **JSON send log** (`SendLog.JsonLogFile`). A class whose `logs` field
  holds entries newest first, capped at 1000.
- **Log query** (`SendLog.QueryLogs`). The JSON-file branch filters by
  optional start and end dates and then takes a prefix.
- **SQL builder** (`LogQuerySql.BuildLogQuery`). An imperative method, as in
  the source. It is checked against an independent parser
  (`LogQuerySql.ParseLogQuery`) that reads the built text back.
- **Brightpearl order search** (`OrderSearch`). The regional base URL, the
  three-way decoding of order IDs, the cap at ten IDs for the details URL,
  and the per-order summary with its `customerName` fallback chain.

JavaScript values are modelled in `Js.Value`: `undefined`, `null`, booleans,
integral numbers, strings, arrays and objects. The server relies on several
JavaScript rules, and each is written out:

- truthiness and `||`;
- property access that throws on `null`/`undefined`, and the `?.` form;
- `String(v)`, with `Array.prototype.join` semantics for arrays;
- `v + 150`: this concatenates when `v` is a string, so `"50"` gives `"50150"`.

Helper modules hold the rest:

- `Wrappers`: `Option`, `Result`, `Outcome`.
- `Text`: `split`, `join`, `trim`, digit tests.
- `Decimal`: number rendering and parsing, with round-trip lemmas.
- `Seqs`: filter, slice and subsequence.

Calls into code outside this model are parameters of the handler
(`SendToDocuSign.Services`): Node's base64 decoding (`Buffer.from`), and the
DocuSign SDK's JWT authentication and `createEnvelope`. The clock
(`timestamp`), the request headers (`SendToDocuSign.Client`) and date parsing
(`parseDate`) are inputs as well.

Points of the code worth stating outright:

- The initial tabs are always emitted, one per sign-here tab.
- `x + 150` adds for a numeric `x` (`DocuSignService.NumericTabCoordinates`)
  and concatenates for a string `x` (`DocuSignService.StringXIsConcatenated`).
- The route is `POST /send-to-docusign`, without an `/api` prefix.

## Model

| member | source | states |
|---|---|---|
| DocuSignService.BuildEnvelope | docusignService.js:56-103 | The envelope is built exactly when every position's page, x and y is not null/undefined; otherwise a TypeError. It has subject "Please approve the mockup sheet", status "sent", and one document (the PDF bytes, "Mockup Sheet", "pdf", id "1"). It has one signer with the given email and name, recipientId "1" and routingOrder "1". There is one sign-here tab per position, in order, carrying position i's page/x/y, documentId "1", label `Logo_Approval_{i+1}` and optional "false". There is one initial tab per position with x + 150, label `Initial_{i+1}` and optional "true". |
| DocuSignService.TabLabelsDistinct | docusignService.js:80-91 | All labels of the sign-here and initial tabs of one envelope are pairwise distinct, within each kind and across the two kinds. |
| DocuSignService.OrdinalLayoutDistinct | docusignService.js:80-91 | Any label list made of n sign-here ordinals followed by n initial ordinals has no repeated label. |
| DocuSignService.OrdinalLabelsDistinct | docusignService.js:80 | Two different indices give different ordinal labels under the same prefix. |
| DocuSignService.NumericTabCoordinates | docusignService.js:77-90 | For numeric coordinates, parsing tab i's page, x and y strings gives back position i's values. Parsing the initial tab's x gives x + 150. |
| DocuSignService.StringXIsConcatenated | docusignService.js:89 | A string x of "50" puts its initial tab at "50150": JavaScript's `+` concatenates. |
| DocuSignService.NoPositionsNoTabs | docusignService.js:74-94 | An empty position list builds an envelope with no sign-here and no initial tabs. |
| SendToDocuSign.ValidateRequest | server.js:565-589 | A null body throws (500) and a falsy pdfBase64, recipientEmail or recipientName is a 400 with the missing-fields message. Otherwise the request is accepted exactly when signaturePositions-or-else-logoPositions is an array, and the 400 "signaturePositions must be an array" is given when it is not. An accepted request carries the three fields and that array's items. |
| SendToDocuSign.SignaturePositionsDecide | server.js:582-589 | When `signaturePositions` is truthy it decides alone. The request is accepted iff it is an array, and then its items are used, whatever `logoPositions` holds. |
| SendToDocuSign.LegacyPositionsAccepted | server.js:582-589 | When `signaturePositions` is falsy, the request is accepted iff `logoPositions` is an array, and then its items are used. |
| SendToDocuSign.FormatPosition | server.js:593-597 | Each of page, x and y keeps its value when truthy and otherwise becomes 1, 100 and 100, so 0 is replaced too. The result always renders. |
| SendToDocuSign.FormatPositions | server.js:593-597 | Formatting succeeds iff no position is null/undefined, and fails with a TypeError otherwise. It keeps length and order, applying `FormatPosition` element-wise, and every formatted position renders. |
| SendToDocuSign.FormattedPositionsBuild | server.js:593-604 | The envelope builder never throws on formatted positions. |
| SendToDocuSign.ZeroCoordinatesDefault | server.js:594-596 | A page or x of 0 and a missing y are replaced by their defaults; a non-zero y is kept. |
| SendToDocuSign.HeaderOr | server.js:615 | An absent or empty user-agent header gives "unknown"; otherwise the header is used. |
| SendToDocuSign.ClientAddress | server.js:616 | The address is never empty. It is `req.ip` when non-empty, else the socket address when non-empty, and "unknown" when neither is. |
| SendToDocuSign.StatusCode | server.js:574-631 | A send is 200, a rejection 400, a thrown error 500, and each code has exactly one reply kind. |
| SendToDocuSign.HandleSend | server.js:563-633 | A rejected body gets its rejection and makes no outside call. A log entry is written iff the reply is a success, and a success means an envelope was submitted. An envelope is submitted whenever validation, decoding, formatting and authentication succeed; it is then the builder's envelope for the formatted positions. On success the reply carries `createEnvelope`'s envelope ID and status, and the log entry carries them too, with the timestamp, recipient, `signatureCount` equal to the number of positions and of each kind of tab, the decoded PDF size, and the client's user agent and address. Conversely, whenever `createEnvelope` accepts the submitted envelope, the reply is the success carrying its envelope ID and status. A failed decode, a null position, a failed authentication and a rejected `createEnvelope` each give a 500 carrying that step's error, with nothing logged. So a valid body that does not succeed always gets a 500. |
| SendToDocuSign.MissingFieldsStopEarly | server.js:574-579 | A body missing a required field gets exactly a 400 with the missing-fields message, with nothing submitted and nothing logged. |
| SendToDocuSign.OneSignatureScenario | server.js:565-625 | One position with services that accept gives reply `EV-1`/`sent`, a log entry with `signatureCount` 1 and the PDF's size, and a first tab labelled `Logo_Approval_1`. |
| SendToDocuSign.Send | server.js:607-625 | The reply is the handler's. A successful send appends its entry to the JSON log file, and any other reply leaves the file unchanged. |
| SendLog.AfterAppend | server.js:450-456 | After appending, entry 0 is the new entry, the length is `min(old length + 1, 1000)`, and entries 1.. are the old log's prefix of that length minus one, in order. |
| SendLog.JsonLogFile.Record | server.js:450-456 | `unshift` then truncate to 1000 changes `logs` to `AfterAppend(old logs, entry)`: the new entry first, the length capped, and the rest an order-kept prefix of the old log. |
| SendLog.JsonLogFile.Empty | server.js:418-423 | A missing log file starts as an empty log. |
| SendLog.JsonLogFile.Load | server.js:449-450 | An existing log file's entries become the log, in their stored order. |
| SendLog.AppendAllKeepsMostRecent | server.js:450-456 | Appending entries one by one keeps the 1000 most recent of all entries, newest first. |
| SendLog.AppendAllBounded | server.js:453-455 | However many sends are appended, the log never exceeds 1000 entries. |
| SendLog.QueryLogs | server.js:519-535 | `total` is the stored length whatever the filters, and `returned` is the number of returned entries. The returned entries are an order-keeping subsequence of the log, each on or after startDate and on or before endDate when those are given. A non-negative limit bounds `returned`, and an absent one bounds it by 50. The result is exactly a prefix of the date-filtered log, and `returned` is the `slice(0, limit)` length of that log: min(limit, matches) for a non-negative limit, counted from the end for a negative one. |
| SendLog.InRangeIsSubsequence | server.js:521-527 | The date filters keep the log's order and invent no entries. |
| SendLog.QueryReturnsAllMatchesUnderLimit | server.js:521-529 | With a limit no smaller than the log, every entry in the date range is returned. |
| SendLog.EmptyRangeReturnsNothing | server.js:521-535 | A start date that excludes every entry returns nothing but still reports the full total. |
| LogQuerySql.BuildLogQuery | server.js:473-491 | The built query parses back. It has one timestamp condition per given date, the start condition first and the end condition last. Placeholder i names parameter i ($1, $2, ... in order), each condition's parameter is its date, the LIMIT placeholder is `$<params.length>`, and the last parameter is the limit. |
| LogQuerySql.BuiltQueryParses | server.js:473-490 | The select, any run of conditions and the limit clause read back as exactly that run and that limit placeholder. |
| LogQuerySql.ParseConditions | server.js:477-490 | Any run of condition clauses before the limit clause parses back to itself, in order. |
| OrderSearch.Datacenter | server.js:49 | An absent or empty setting selects a non-empty datacenter (use1), and a non-empty setting is used as given. |
| OrderSearch.BaseUrl | server.js:158-160 | The EU host is chosen iff the datacenter is "euw1", and the US host iff it is anything else. |
| OrderSearch.DecodeOrderIds | server.js:306-332 | Missing or empty results give no IDs. If `results[0]` is an array, the IDs are `row[0]` of every row in order, failing with a TypeError iff some row is null/undefined. Numeric or string `results[0]` returns the results unchanged. Anything else uses the comma-split fallback. |
| OrderSearch.KeptPartsExactly | server.js:326-331 | The fallback yields only all-digit strings, each a trimmed part at a multiple of 20. Every trimmed part at a multiple of 20 that is all digits is yielded. |
| OrderSearch.KeptIndices | server.js:329-331 | The kept indices are increasing, in range, and all satisfy the filter. |
| OrderSearch.KeptIndicesComplete | server.js:329-330 | No index that satisfies the filter is skipped. |
| OrderSearch.ArrayRowsGiveFirstCells | server.js:315-316 | Non-empty array rows decode to their first cells, one per row, in order. |
| OrderSearch.DetailIds | server.js:342 | At most 10 IDs are kept: the first `min(n, 10)`, in order. |
| OrderSearch.OrderRangeSplitsIntoIds | server.js:342-343 | When no ID renders with a comma (numbers and comma-free strings), splitting the joined range on commas gives back the renderings of the at most ten kept IDs, in order. |
| OrderSearch.DetailsStep | server.js:306-344 | Decoding failures propagate. No IDs answers with an empty list. Otherwise the details URL is the base URL, `/public-api/<account>/order-service/order/` and the comma-joined first ten IDs. |
| OrderSearch.FirstTruthy | server.js:369-372 | The result is the first truthy candidate, or the fallback when none is truthy. |
| OrderSearch.OrChainIsFirstTruthy | server.js:369-372 | The or-else chain of three candidates and a fallback equals the first-truthy reference definition. |
| OrderSearch.SummarizeOrder | server.js:366-375 | orderId, orderReference and placedOn are copied. customerName is the first truthy of contactName, the delivery addressFullName and the customer addressFullName, else "Unknown", so it is always truthy. deliveryDate is kept when truthy and null otherwise. |
| OrderSearch.SummarizeOrders | server.js:366-375 | Mapping succeeds iff no order is null/undefined (else a TypeError). It keeps the count and order, summarising each element. |
| OrderSearch.CustomerNameFallbacks | server.js:369-372 | A non-empty contact name is used, and an empty one with nothing else gives "Unknown". |
| Js.Or | server.js:582 | JavaScript's or-else `a or b` is one of its operands. It is truthy iff either is, and it is `a` when `a` is truthy and `b` when `a` is falsy (so `0 or null` is null). |
| Js.ToString | docusignService.js:77-79 | `toString` of a number parses back to that number and holds no comma. A string renders as itself. An empty array renders as "", and a one-element array as its element. |
| Js.Index0 | server.js:316 | `row[0]` is an array's first element, a one-character prefix of a non-empty string, or an object's property "0". Anything else, including an empty array or string, gives undefined. |
| Js.AddNumber | docusignService.js:89 | Adding to a number adds. Adding to a string appends the number's decimal rendering. |
| Text.SplitJoin | server.js:327-343 | Splitting a comma-join of comma-free parts on the comma gives the parts back. |
| Text.JoinSplit | server.js:327 | Joining the parts of a split with the separator gives the original string back. |
| Text.Trim | server.js:330-331 | The trimmed string is the infix left after removing the leading and trailing whitespace, and it neither starts nor ends with whitespace. |
| Decimal.IntToStringRoundTrip | docusignService.js:77-80 | Parsing the decimal rendering of an integer gives the integer back. |
| Decimal.IntToStringInjective | docusignService.js:80-91 | Different integers render differently. |

## Left out

- Base64 decoding (`Buffer.from(pdfBase64, 'base64')`) and encoding are a parameter of the handler. The document travels as its bytes.
- The DocuSign SDK calls are outcomes and functions the handler receives: `requestJWTUserToken`, `addDefaultHeader` and `createEnvelope`. `apiClient`'s header state is not modelled.
- `fs` reads and writes, `JSON.parse`/`JSON.stringify` and the PostgreSQL pool are not modelled. The JSON log is the `logs` field of `SendLog.JsonLogFile`, and the SQL is the built text with its parameters.
- The PostgreSQL insert branch of `logDocuSignSend`, the `COUNT(*)` query and the row mapping of `/api/docusign-logs` are left out: they are database I/O.
- `logDocuSignSend` is called without `await`. Its JSON branch has no `await` and uses synchronous file calls, so the append finishes before the reply is sent. `SendToDocuSign.Send` recording before replying is exact for this branch. Writers in separate processes sharing the file are not modelled.
- Errors inside `logDocuSignSend` are caught and only printed, so they never change the reply. The model does not produce them.
- `new Date(...)` parsing is the `parseDate` parameter. `None` stands for an Invalid Date, which compares false.
- SendLog.QueryLogs: a non-numeric `limit` (where `parseInt` gives NaN and `slice(0, NaN)` returns nothing) is not modelled. The limit is an optional integer, with slice semantics for negative values.
- LogQuerySql.BuildLogQuery: the limit is an integer; a NaN limit passed to PostgreSQL is not modelled.
- Numbers are integers: fractional coordinates, NaN and the floating-point rendering of `toString` are not modelled.
- Strings are sequences of characters, not UTF-16 code units. `row[0]` on a string and `trim` work on characters.
- OrderSearch.DecodeOrderIds: `response.results` is an optional list of values. A truthy non-array `results` is not modelled.
- OrderSearch.SummarizeOrders: `detailsData.response` is a list. A non-array response is not modelled.
- The HTTP `fetch` calls to Brightpearl, their error statuses, and the credential check before them are left out: they are network I/O. So are the SFTP image route, the `/fetch-image` proxy, CORS, `/check-limits` and `app.listen`.
- `console.log` and `console.error` tracing has no effect on results and is left out.
- The `DOCUSIGN_BASE_PATH` default and the JWT lifetime and scopes configure the SDK client, which is not part of this model.
