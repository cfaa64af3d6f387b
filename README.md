# trt-twilio message handling, modelled in Dafny

The repository is an SMS webhook for "The Right Time" clinic finder. An
inbound text message is routed by its body: four exact keywords (`LOCATE`,
`STATS`, `GEO`, `TWO`) each have fixed replies, and any other body that
contains five consecutive ASCII digits gets a reply quoting the ZIP code
found in it. The ZIP is extracted by the regular expression `/\d{5}/`: a
test with the plain pattern, then the **last** entry of the global
(`/g`) match list. The same logic exists twice: a TypeScript version
(`src/server.ts`, `src/utilities.ts`) and an older JavaScript copy
(`server.js`, `utilities.js`).

Modules:

- `JsValues` (`js_values.dfy`): a request field is either a string or
  missing; template-literal text (`${x}` gives `"undefined"` for a missing
  field) and `x || ''`.
- `ZipPattern` (`zip_pattern.dfy`): the regex engine's behaviour for
  `/\d{5}/`. `NextMatch` is the leftmost-match search from an index,
  `MatchStarts` the global scan that resumes five characters after each
  match, and `GreedyMatchList` a declarative description of that list.
  `MatchStartsIsGreedy` and `GreedyMatchListUnique` show that the scan's
  list meets that description and is the only list that does.
- `UtilitiesTs`, `UtilitiesJs`: `parseZipCode` and `hasValidZipCode` of
  each version. The TypeScript one returns `''` for non-strings. The
  JavaScript one calls `toString()` on a missing value, which throws; that
  result is `None`.
- `Routing` (`routing.dfy`): the webhook request, the keywords, the reply
  texts and the replies of each kind of message (`Intent`).
- `Twiml`: the response object, reduced to the ordered list of message
  texts it collects.
- `ServerTs`, `ServerJs`: the handlers. Each builds a local list of
  replies by pushing across the if/else chain. Then a loop hands each reply,
  in order, to the response object. Each handler method is proved equal to
  a specification function (`ServerTs.Replies`, `ServerJs.Respond`) whose
  contract states the decision table.

Keywords are compared exactly and case-sensitively. Any run of five or
more digits is accepted, and with several matches the last one is taken.
src/interfaces/EndUser.d.ts declares message counters and a `next_closest`
field, but no code uses them, so rate limiting, region gating, clinic
search and pagination are not modelled.

## Model

| member | source | states |
|---|---|---|
| `ZipPattern.NextMatch` | src/utilities.ts:8-9 | the search returns the leftmost index at or after the start where five ASCII digits begin; `None` means no match starts anywhere after it |
| `ZipPattern.Test` | src/utilities.ts:9 | `/\d{5}/.test(s)` holds exactly when `s` contains five consecutive ASCII digits |
| `ZipPattern.MatchStarts` | src/utilities.ts:10 | every entry of the global scan's list is a match, and the list is empty exactly when no match starts at or after the scan's start |
| `ZipPattern.MatchStartsIsGreedy` | src/utilities.ts:10 | the global scan's match list is greedy: each entry is a match, each is the leftmost one after the previous match ends, and no match starts after the last one ends |
| `ZipPattern.GreedyMatchListUnique` | src/utilities.ts:10 | any list meeting the greedy description is the one the scan produces, so the match list is determined by the string |
| `ZipPattern.MatchAll` | src/utilities.ts:10 | `s.match(/\d{5}/g)` is null exactly when there is no match; otherwise it lists the texts of the greedy matches in order |
| `UtilitiesTs.ParseZipCode` | src/utilities.ts:7-16 | the result is `''` or five ASCII digits; it is `''` exactly when the input is not a string or has no five-digit run; a non-empty result is a substring of the message |
| `UtilitiesTs.HasValidZipCode` | src/utilities.ts:24-30 | true exactly when the input is a string containing five consecutive digits, which is exactly when `parseZipCode` is non-empty |
| `UtilitiesTs.ParseZipCodeIsLastMatch` | src/utilities.ts:10 | the result is the text of the last match of the global scan, and `''` when the scan finds none |
| `UtilitiesTs.ParseZipCodeIsLastGreedyMatch` | src/utilities.ts:10 | the result is the text of the last entry of the greedy left-to-right match list, and `''` when that list is empty |
| `UtilitiesTs.TenDigitsGiveTheLastFive` | src/utilities.ts:10 | a message of ten digits gives its last five: the two matches are back to back and the second one wins |
| `UtilitiesTs.SixDigitsGiveTheFirstFive` | src/utilities.ts:10 | a message of six digits gives its first five, since the overlapping candidate at index 1 is skipped |
| `UtilitiesTs.TenDigitExample` | src/utilities.ts:10 | `"1234567890"` gives `"67890"` |
| `UtilitiesTs.SixDigitExample` | src/utilities.ts:10 | `"123456"` gives `"12345"` |
| `UtilitiesTs.LongerDigitRunIsAccepted` | src/utilities.ts:8-9 | a run of five or more digits makes `hasValidZipCode` true |
| `UtilitiesTs.NonStringHasNoZip` | src/utilities.ts:24-27 | a non-string gives `''` and `hasValidZipCode` false |
| `UtilitiesTs.ParseZipCodeIdempotent` | src/utilities.ts:7-13 | applying `parseZipCode` to its own non-empty result returns that result |
| `UtilitiesJs.ParseZipCode` | utilities.js:7-17 | throws exactly for a missing value; otherwise the result is `''` or five digits, `''` exactly when there is no five-digit run, and a substring of the message |
| `UtilitiesJs.HasValidZipCode` | utilities.js:25-27 | throws exactly for a missing value; otherwise true exactly when the message contains five consecutive digits, that is when `parseZipCode` is non-empty |
| `UtilitiesJs.AgreesWithTypeScript` | utilities.js:7-17 | on every string both versions of `parseZipCode` and `hasValidZipCode` agree; on a missing value the JavaScript one throws where the TypeScript one gives `''` |
| `ServerTs.Classify` | src/server.ts:30-46 | each keyword intent arises exactly for its exact, case-sensitive body; the ZIP intent arises exactly for a non-keyword string with a five-digit run and carries `parseZipCode(body)`; otherwise the body is unrecognised |
| `ServerTs.Replies` | src/server.ts:30-46 | LOCATE gives the one prompt, STATS nothing, GEO one echo of city, state, zip and country in that order, TWO the two fixed parts in order, a non-keyword body with a ZIP one reply embedding `parseZipCode(body)`, anything else nothing; never more than two replies |
| `ServerTs.HandleMessage` | src/server.ts:15-57 | the messages put into the response are exactly the pushed replies, each once, in push order |
| `ServerTs.IncomingMessageController` | src/server.ts:60-69 | missing location fields are defaulted to `''` before routing; GEO with no location fields echoes four empty strings |
| `ServerTs.IncomingMessageControllerDev` | src/server.ts:71-76 | the dev endpoint routes `message` with four empty location strings |
| `ServerTs.MissingBodyGetsNoReply` | src/server.ts:43 | a missing body gets no reply |
| `ServerJs.Classify` | server.js:25-46 | the same exact, case-sensitive keyword precedence as the TypeScript chain; the ZIP test throws exactly for a missing body |
| `ServerJs.Respond` | server.js:25-46 | the request throws exactly when the body is missing; otherwise LOCATE gives the prompt, STATS nothing, GEO one echo of the four template texts, TWO the two parts in order, a ZIP body one reply with the parsed ZIP, anything else nothing |
| `ServerJs.IncomingMessageHandler` | server.js:16-57 | the response holds the pushed replies, each once, in push order, or the handler throws as `Respond` says |
| `ServerJs.MissingBodyThrows` | server.js:43 | a request without a body throws a TypeError instead of replying |
| `ServerJs.GeoWithMissingFieldsPrintsUndefined` | server.js:31-37 | GEO with no location fields replies with the word `undefined` in each of the four location slots |
| `ServerJs.AgreesWithTypeScriptWhenFieldsGiven` | server.js:25-46 | with a body and all four location fields present, server.js replies exactly what the TypeScript webhook controller replies |

## Left out

- HTTP plumbing: the Express app, body parsing, route registration and `app.listen` (src/server.ts:78-90, server.js:59-69).
- The Redis client and `getNumberDbCount` (src/utilities.ts:38-50): asynchronous I/O with an external store, and every call to it is commented out.
- The XML produced by `twiml.toString()` and the `res.type(...).send(...)` call: the response is modelled only as its ordered list of message texts.
- `console.log` output, and therefore the `from` argument, which the handlers only log.
- The type declarations in src/interfaces (Clinic, EndUser): they carry no behaviour in this code.
- Non-string field values other than a missing field: a field is modelled as a string or missing. For the message body in src/server.ts every non-string behaves as a missing field, so there the model is exact; in server.js a number or an array body would be converted by `toString()` and might match. The location fields are a different case: `express.json()` (src/server.ts:80) lets a number or an array arrive there, and `|| ''` (src/server.ts:63-66) or a template literal (server.js:37) prints it (`42`, `a,b`); the model does not capture such location values.
- `async`/`await`: the handlers do no awaited work once the store calls are commented out, so they are modelled as ordinary calls.

## Findings

| source | as written | input that shows it | evidently intended | confidence | as-written member | corrected member |
|---|---|---|---|---|---|---|
| server.js:43 | a body that is missing reaches `hasValidZipCode(undefined)`, whose `parseZipCode` calls `undefined.toString()` (utilities.js:9) and throws a TypeError, so no reply is sent | a webhook POST without a `Body` field | no reply, as src/server.ts gives through the type guard of src/utilities.ts:24-27 | medium; not executed | `ServerJs.MissingBodyThrows` | `ServerTs.MissingBodyGetsNoReply` |
| server.js:32-37 | the GEO branch reads the location fields with no default, so a missing field is printed as `undefined` | body `GEO` with no `FromCity`, `FromState`, `FromZip`, `FromCountry` | an empty text for a missing field, as src/server.ts:63-66 defaults them to `''` | medium; not executed | `ServerJs.GeoWithMissingFieldsPrintsUndefined` | `ServerTs.IncomingMessageController` |
