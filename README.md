# lemlist-sdk client core in Dafny

This project models `LemListAPI`, the TypeScript client of the lemlist REST API. It covers three things:

- **The constructor.** It merges the caller's options over the defaults with a JavaScript spread. An explicit `baseUrl: undefined` replaces the default, so the URL then starts with the text `undefined`.
- **The public methods.** Each one turns its arguments into a request descriptor: an HTTP verb, a path with its query string, an optional JSON body, and the response schema. The query strings are filled in step by step on a `URLSearchParams` object.
- **The private `request`.** It builds the `fetch` options, sends the call and then fills in a `Result` envelope step by step. The Basic authorization header has an empty user-id and the API key as the password.

The model has these modules:

| module | what it holds |
|---|---|
| `LemList` | The client, the descriptor builders, `request` and the envelope. |
| `LemListTypes` | The parameter records and literal unions, the JSON bodies, and the names of the response schemas. |
| `FormUrlEncoded` | The `application/x-www-form-urlencoded` serializer of the WHATWG URL Standard, a parser that inverts it, and the `UrlSearchParams` class with `set` and `toString`. |
| `Base64` | Base64 encoding as in section 4 of RFC 4648, its decoder, and `btoa`. `btoa` fails on any character above U+00FF. |
| `Json` | A JSON value type, `JSON.stringify` on it, JavaScript truthiness, and a reader that inverts the stringifier. |
| `IsoDate` | `Date.prototype.toISOString` on UTC calendar fields, including the `RangeError` for an invalid date, and a reader that inverts it. |
| `Text` | Decimal text of integers, zero-padded digit fields, and comma joining and splitting. |
| `Utf8` | UTF-8 encoding of strings and its decoder. |
| `Wrappers` | The `Option` type. |

`btoa`, `JSON.stringify`, `toISOString`, integer `toString`, `Array.prototype.join`, and `URLSearchParams` `set` and `toString` are specification functions. `fetch` and the response body (`response.json()`) are parameters of `Request` and `RequestAsWritten`, not models. The encoders have round-trip lemmas:

- the urlencoded serializer, on every list of pairs;
- base64 and UTF-8, on every input;
- `JSON.stringify`, on every value;
- `toISOString`, on every valid date;
- integer text, on every integer;
- comma joining, only for a non-empty list of parts that hold no comma.

`URLSearchParams.set` has no inverse. Its lemma says which tuples it keeps, which it replaces and where the new one sits. `Json.Truthy` is stated case by case, as ECMAScript's ToBoolean defines it. The builders' lemmas use these facts to say what each query means.

## Model

| member | source | states |
|---|---|---|
| LemList.NewClient | src/lemlist.ts:54-64 | The client keeps the key. Without options, or with options that leave `baseUrl` out, the options are the defaults. A `baseUrl` property the caller gives, even as `undefined`, wins. |
| LemList.TargetUrlOfNewClient | src/lemlist.ts:54-64 | The request target is the default base URL plus the path, unless a base URL was given, in which case it is that URL plus the path. An explicit `undefined` puts the text "undefined" in front of the path. |
| LemList.GetCampaign | src/lemlist.ts:135-137 | GET with no body, validated by the campaign schema. The path is the segments `campaigns` and the id, each after a slash. |
| LemList.UpdateCampaign | src/lemlist.ts:147-149 | PATCH with the update object as its body. The path is the segments `campaigns` and the id. |
| LemList.PauseCampaign | src/lemlist.ts:158-160 | POST with no body. The path is the segments `campaigns`, the id and `pause`. |
| LemList.CreateCampaign | src/lemlist.ts:169-171 | POST to `/campaigns` with the request object as its body. |
| LemList.StartCampaignExport | src/lemlist.ts:199-201 | GET with no body. The path is the segments `campaigns`, the id, `export` and `start`. |
| LemList.GetCampaignExportStatus | src/lemlist.ts:211-213 | GET with no body. The path is the segments `campaigns`, the campaign id, `export`, the export id and `status`. |
| LemList.SetExportEmail | src/lemlist.ts:224-226 | PUT with no body. The path is the segments `campaigns`, the campaign id, `export`, the export id, `email` and the address. |
| LemList.SetExportEmailAmbiguous | src/lemlist.ts:224-226 | Identifiers are not escaped. Two different argument triples therefore produce the same path. |
| LemList.GetTeam | src/lemlist.ts:271-273 | GET `/team`, no body, team schema. |
| LemList.GetTeamSenders | src/lemlist.ts:281-283 | GET `/team/senders`, no body, senders schema. |
| LemList.GetTeamCredits | src/lemlist.ts:291-293 | GET `/team/credits`, no body, credits schema. |
| LemList.GetUser | src/lemlist.ts:306-308 | GET with no body. The path is the segments `users` and the id. |
| LemList.GetWebhooks | src/lemlist.ts:320-322 | GET `/hooks`, no body, webhooks schema. |
| LemList.DeleteWebhook | src/lemlist.ts:355-357 | DELETE with no body. The path is the segments `hooks` and the id. |
| LemList.SlashPathSplit | src/lemlist.ts:135-357 | A path built from a non-empty list of segments that hold no slash splits at the slashes into an empty head followed by exactly those segments, in order. |
| LemList.SetPresent | src/lemlist.ts:116-122 | Running the `if (value) queryParams.set(name, value)` statements over a table of distinct names leaves exactly the present values, each under its name, in table order. |
| LemList.EntriesMeaning | src/lemlist.ts:116-122 | Such a list holds exactly the names whose value is present, in order. Each name looks up to its value, or to nothing when the value was skipped. |
| LemList.NumberParam | src/lemlist.ts:116-119 | A number parameter is set exactly when it is present and not zero. Its text reads back to the number. |
| LemList.TextParam | src/lemlist.ts:186-188 | A string parameter is set exactly when it is present and not empty, and then it is set unchanged. |
| LemList.GetCampaigns | src/lemlist.ts:112-126 | GET with no body. Without params the path is exactly `/campaigns`. With a params object it is `/campaigns?` followed by the serialized query. |
| LemList.CampaignsQueryNames | src/lemlist.ts:113-125 | The query keys are the truthy ones among offset, limit, version, page, sortby, sortOrder and status, in that order. The serialized query parses back to the list. |
| LemList.CampaignsQueryLookup | src/lemlist.ts:116-122 | Each key reads back to its parameter's text. A zero or absent number, or an absent literal, is not there. |
| LemList.CampaignsNoKeys | src/lemlist.ts:113-125 | An empty params object gives an empty query, so the path is `/campaigns?`. |
| LemList.GetCampaignStats | src/lemlist.ts:181-190 | Fails exactly when either date is invalid, because `toISOString` throws. Otherwise the call is GET `/v2/campaigns/{id}/stats?` followed by the serialized query, with no body. |
| LemList.StatsQueryDates | src/lemlist.ts:182-189 | For valid dates the first two keys are startDate and endDate. Their values read back to the dates given. sendUser, ABSelected and channels follow, in that order. |
| LemList.StatsQueryLookup | src/lemlist.ts:186-188 | sendUser, ABSelected and channels each read back to the value given, and are absent when that value is falsy. |
| LemList.GetCampaignReports | src/lemlist.ts:255-259 | GET `/campaigns/reports?` followed by the serialized one-key query, with no body. |
| LemList.ReportsQueryShape | src/lemlist.ts:255-258 | For every list of ids, the only key is campaignIds. Its value is the ids joined by commas, so an empty list gives the empty value. The serialized query parses back to the list. |
| LemList.ReportsQueryMeaning | src/lemlist.ts:255-258 | With at least one id and no comma in any id, splitting the campaignIds value at the commas gives back the ids in order. |
| LemList.ReportsQueryAmbiguous | src/lemlist.ts:257 | Ids are joined verbatim, so `["a,b"]` and `["a", "b"]` give the same query. |
| LemList.IsFirstParam | src/lemlist.ts:340 | isFirst is set exactly when it is defined, `false` included. Its text is "true" exactly when it is true. |
| LemList.CreateWebhook | src/lemlist.ts:332-346 | POST with the request object as its body. The path is `/hooks`, followed by `?` and the query only when params are given and the query is not empty. |
| LemList.WebhookQueryMeaning | src/lemlist.ts:336-344 | The query keys appear in the order campaignId, isFirst, zapId. campaignId and zapId appear only when truthy. isFirst appears whenever it is given, `false` as "false". |
| LemList.WebhookNoKeys | src/lemlist.ts:336-344 | With campaignId and zapId falsy or absent and isFirst undefined, the query is empty, so the path is exactly `/hooks`; `isFirst: false` still gives `?isFirst=false`. |
| LemList.AuthorizationCredentials | src/lemlist.ts:75 | The header exists exactly when every character of the key is at most U+00FF. It is then "Basic " plus a base64 text that decodes to the bytes of ":" and the key. |
| LemList.BuildFetchOptions | src/lemlist.ts:71-81 | Building `fetchOptions` step by step gives the request options of the call: the headers first, then the body, attached only when it is truthy. There are no options when `btoa` throws. |
| LemList.FetchOptionsMeaning | src/lemlist.ts:71-81 | Every request carries the JSON content type and the Authorization header, and uses the call's verb. It has a body exactly when the call's body is truthy, and that body parses back to the call's body. |
| LemList.BodiesAttached | src/lemlist.ts:79-81 | The bodies of updateCampaign, createCampaign and createWebhook are objects, so they are always attached as their stringified form. |
| LemList.Envelope | src/lemlist.ts:83-98 | `success` is true exactly when the response came, its body was JSON and the schema accepted it. Then `data` is the parsed output and there is no error. Otherwise there is no data, and the error is the one from the step that failed. |
| LemList.EnvelopeIgnoresStatus | src/lemlist.ts:89-93 | The HTTP status is never read: two responses that differ only in status give the same result. |
| LemList.Attempt | src/lemlist.ts:83-98 | The result, which starts unsuccessful and without data, is updated step by step through the try and catch. It ends as the envelope of the fetch outcome. |
| LemList.RequestAsWritten | src/lemlist.ts:66-99 | As written: the promise rejects exactly when the key cannot be encoded for the header. Otherwise it fulfils with the envelope of the fetch made with the built options at base URL plus path. |
| LemList.NonLatin1KeyRejects | src/lemlist.ts:75 | A key holding U+0100 has no header, so `request` as written rejects for every call. |
| LemList.Request | src/lemlist.ts:66-99 | Corrected: the promise always fulfils. A key that cannot be encoded gives an unsuccessful result whose error is the encoding error. Otherwise the result is the envelope. |
| LemList.CampaignStatsRequest | src/lemlist.ts:181-190 | Corrected: the statistics call always fulfils. An invalid date gives an unsuccessful result carrying the `RangeError`. Valid dates give the corrected request of the statistics path. |
| LemList.RequestEnvelopeInvariant | src/lemlist.ts:83-98 | In the corrected request, whatever the key and the outcome, the result has data exactly when it succeeded, and an error exactly when it failed. |
| LemListTypes.MembersMeaning | src/lemlist.ts:80 | The object `JSON.stringify` writes for a list of properties has as keys the defined ones, in order. Each member is a defined property with its value, and each defined property is a member. There are no members exactly when every property is undefined. |
| LemListTypes.UpdateCampaignJsonMeaning | src/types.ts:50-63 | The update body's keys are exactly the present properties, in declaration order. Each member carries its property's value, and each present property is a member. |
| LemListTypes.UpdateCampaignJsonEmpty | src/types.ts:50-63 | The update body is `{}` exactly when no property is present. |
| FormUrlEncoded.UrlSearchParams.Set | src/lemlist.ts:116 | `set` replaces the first entry of the name and drops the others, or appends the pair when the name is new. |
| FormUrlEncoded.SetEntrySpec | src/lemlist.ts:116 | After `set`, the name looks up to the new value, and exactly one tuple has that name. The tuple stands at the index of the name's first old tuple, with everything before it unchanged, or at the end when the name is new. Removing the name leaves the same list as removing it from the old list, so the other names' tuples are unchanged and keep their order. |
| FormUrlEncoded.UrlSearchParams.ToString | src/lemlist.ts:123 | `toString` is the urlencoded serialization of the list, and it parses back to the list. |
| FormUrlEncoded.SerializeRoundTrip | src/lemlist.ts:123 | Parsing the serialization of any list of pairs gives back that list. |
| FormUrlEncoded.SerializeEmpty | src/lemlist.ts:342-343 | The serialization is empty exactly when the list is empty. |
| Base64.Btoa | src/lemlist.ts:75 | `btoa` succeeds exactly on strings whose every character is at most U+00FF. Its output decodes to those characters as bytes. |
| Base64.DecodeEncode | src/lemlist.ts:75 | Base64 decoding inverts encoding on every byte sequence. |
| Utf8.DecodeEncode | src/lemlist.ts:123 | UTF-8 decoding inverts encoding on every string. Percent-encoding uses that encoding. |
| Json.ParseStringify | src/lemlist.ts:80 | Reading back the `JSON.stringify` text of any value gives that value. |
| IsoDate.ToIsoString | src/lemlist.ts:184-185 | `toISOString` fails exactly on an invalid date. Its text is 24 characters long, or 27 for years outside 0 to 9999. |
| IsoDate.ReadToIsoString | src/lemlist.ts:184-185 | The ISO text of a valid date reads back to that date. |
| Text.IntegerTextRoundTrip | src/lemlist.ts:117-119 | The decimal text of every integer reads back to it. |
| Text.SplitJoin | src/lemlist.ts:257 | Splitting comma-joined parts that hold no comma gives the parts back. |

## Left out

- `fetch`, `response.json()` and the promise plumbing are network I/O. `Request` takes the outcome of `fetch` as a function parameter: a rejection, or a response with a status and a body that is JSON or not.
- valibot's `v.parse` and every schema declaration in `src/types.ts` and `src/types/` are left out. Validation is a function parameter that, for a schema name and a JSON value, gives an output or a list of issues. What each schema accepts is not modelled.
- The error values are opaque in the source. The model records which step failed and the reason that step gave.
- Numbers are integers. NaN, fractions and the exponent forms of `Number.prototype.toString` are not modelled, so `NumberParam` covers only the integer parameters the source uses.
- `Json`: the reader accepts exactly the compact text `JSON.stringify` writes. It accepts no whitespace, fractions or exponents, and no surrogate-pair escapes.
- `Utf8`: strings are sequences of Dafny `char`, which excludes lone surrogates. The U+FFFD replacement `URLSearchParams` makes for lone surrogates is not modelled.
- Properties of the caller's objects are taken in declaration order. Property order in `JSON.stringify` bodies for objects built some other way is not modelled.
- `IsoDate`: a date is a set of UTC calendar fields or an invalid date. Time zones, the relation to epoch milliseconds and day-of-month checks against the month are left out.
- `LemList.SetPresent`: the builders' run of `if` statements is one loop over each builder's key table. That table lists the same keys in the same order as the source's statements.
- `Literal`: every literal of the parameter unions is a non-empty string, so an enumerated parameter is set exactly when it is present.
- `src/index.ts` is an example script that makes live calls. It is not part of this model.
- `src/types/utils.ts` only repeats the `Result` interface. Its shape is the `Result` datatype.
- The commented-out `exportCampaignLeads` at src/lemlist.ts:236-246 is dead code.
- `LemList.GetCampaignStats`: as written, `getCampaignStats` throws synchronously on an invalid date. The model gives no call in that case rather than modelling the exception.

## Findings

The source itself says what every public method should do. Each one returns `Promise<Result<…>>`, and its comment says it returns its data "wrapped in a Result type" (for example src/lemlist.ts:178-180). `request` catches every error and returns the result from its `finally` block (src/lemlist.ts:94-97). Two failures escape that handling anyway. The model captures each one as written and also gives a corrected version.

| source | as written | input that shows it | evidently intended | confidence | as-written member | corrected member |
|---|---|---|---|---|---|---|
| src/lemlist.ts:75 | The Authorization header is built with `btoa` before the `try` block. A key `btoa` cannot encode therefore makes `request` reject with an `InvalidCharacterError` instead of returning a `Result`. | apiKey `"Ā"`, any method | The header is built inside the `try`, so the error goes to `result.error` and the promise always fulfils with `success: false`. | not executed | LemList.RequestAsWritten, LemList.NonLatin1KeyRejects | LemList.Request |
| src/lemlist.ts:184-185 | `getCampaignStats` is not `async` and calls `toISOString` before it calls `request`. An invalid date therefore throws a `RangeError` out of the call itself, instead of returning a promise of a `Result`. | `params.startDate` set to `new Date(NaN)` | The date conversion fails inside the result handling, so the call fulfils with `success: false` and the `RangeError` as its error. | not executed | LemList.GetCampaignStats | LemList.CampaignStatsRequest |
