# Trademarkable: the generation pipeline in Dafny

Trademarkable is a small web application. A visitor presses a button and the
server asks a language-model provider for ten invented brand names. This
project models the three parts of the application that hold logic.

- **The `generateTrademarks` action** (convex/trademarks.ts). The action:
  - consults a rate limiter keyed by the caller's identifier;
  - checks that the provider key is configured;
  - calls the provider;
  - cleans and parses the reply, picks the array of candidates and coerces the first ten;
  - appends a row to the `trademarks` table;
  - maps every failure to a `ConvexError`.

  `saveTrademarks` and `getLatestTrademarks` work on the same table. The table
  is the field of a `Deployment` class. It is only ever appended to.
- **The response normalisation** (lines 139-165). It models, with JavaScript's semantics:
  - the two fence-stripping `replace` calls and `trim`;
  - truthiness and `||` on property reads;
  - `Object.values(..).find(Array.isArray)`;
  - `String()`, which throws for an object that has its own `toString` field;
  - `slice(0,10).map`, which aborts at the first entry that throws.
- **The page's client logic** (app/page.tsx):
  - the fingerprint hash, a 32-bit fold over UTF-16 code units printed as `fp-` plus base 36;
  - the empty-identifier and 500 ms click guards;
  - the busy flags;
  - the classifier that picks a notice from `error.data.message`.

  The React state of the page is a `Page` class. `HandleGenerate` runs one
  click against a `Deployment` from start to finish.

Strings are sequences of UTF-16 code units (`JsText`), because `charCodeAt`,
`slice` and `length` count code units.

The model leaves these as inputs:
- the rate limiter's answer;
- `process.env.OPENAI_API_KEY`;
- the provider's reply;
- `JSON.parse`, as a partial function from text to a JSON value;
- both clocks.

The main results:
- The action's error set is closed. It holds exactly the rate-limit object,
  the missing key, the empty reply, the parse failure and the generic failure.
- The missing-key error is reported exactly when the limiter admitted the call
  and `OPENAI_API_KEY` is unset or empty. For an unset variable this rests
  on the assumption that the provider client's constructor (line 84) does
  not throw; see "## Left out".
- An admitted call with a key whose reply is non-empty answers its
  normalised names on success; otherwise the parse failure, or the generic
  failure when coercion throws.
- A row is inserted exactly on success, and the table is unchanged on every failure.
- At most ten names are returned. Up to ten well-formed records, written as
  a JSON array inside a "```json" fence, come back from an admitted call
  with a configured key unchanged, when the array's text contains no
  backtick (`FencedRecordsGenerate`). The two replaces also strip fences
  inside string literals, so a name containing "```" does not survive.
- The fingerprint fold equals Java's `String.hashCode` polynomial reduced to
  int32. Every id has 4 to 9 characters.
- Of all the errors the action throws, the page shows only two notices: the
  per-minute notice for the rate-limit rejection and the generic failure.
  The missing-key error carries a bare string, so the page has no message
  to match. Its "API key not configured" notice is therefore unreachable,
  and so are the daily, hourly and invalid-request notices.

Three facts about the code that the model keeps:
- The action does not check the identifier's shape before consulting the
  limiter; any string is accepted.
- `getLatestTrademarks` returns the latest row of the whole table, whoever
  inserted it.
- The `by_ip` index of convex/schema.ts is declared but no query uses it.

## Model

| member | source | states |
|---|---|---|
| JsText.Contains | app/page.tsx:107-121 | the empty pattern is included in every string, and an included pattern is no longer than the string |
| JsText.IsSpace | convex/trademarks.ts:143 | among ASCII units, `trim` removes exactly tab, line feed, vertical tab, form feed, carriage return and space |
| JsText.ContainsAt | app/page.tsx:107-121 | `includes(p)` holds exactly when p occurs at some offset of the message |
| JsText.AbsentHead | app/page.tsx:107-121 | a pattern whose first code unit is missing from the string is not included in it |
| JsText.TrimStart | convex/trademarks.ts:143 | the result is a suffix, everything cut is JavaScript white space or a line terminator, and the first unit left is not |
| JsText.TrimEnd | convex/trademarks.ts:143 | the result is a prefix, everything cut is white space, and the last unit left is not |
| JsText.Trim | convex/trademarks.ts:143 | the result is a contiguous part of s with only white space cut before and after it, and it neither starts nor ends with white space |
| JsText.TrimStartSnoc | convex/trademarks.ts:143 | one more trailing white-space unit survives the start trim only when something is not white space |
| JsText.TrimSnoc | convex/trademarks.ts:143 | `trim` ignores an extra trailing white-space unit |
| JsonValue.Truthy | convex/trademarks.ts:146 | a value is falsy exactly when it is null, false, zero or the empty string |
| JsonValue.TruthyProperty | convex/trademarks.ts:162-164 | a property read is truthy exactly when it found a truthy value; a truthy read is never undefined or null |
| JsonValue.Property | convex/trademarks.ts:146 | `v.key` finds a value exactly when v is an object with that key, and it is that field's value |
| JsonValue.Lookup | convex/trademarks.ts:146 | a property read finds a value exactly when the object has that key, and what it finds is that field's value |
| JsonValue.Values | convex/trademarks.ts:151 | `Object.values` lists every field's value, in property order |
| JsonValue.StringOf | convex/trademarks.ts:162-164 | `String()` of a string is itself, of a number its printed text, and of an object it throws exactly when the object has its own `toString` field |
| JsonValue.JoinElements | convex/trademarks.ts:162-164 | joining no elements gives the empty string |
| ResponseNormalization.RemoveMarker | convex/trademarks.ts:143 | the global replace never lengthens the text and leaves text without the marker unchanged |
| ResponseNormalization.Clean | convex/trademarks.ts:143 | the text handed to `JSON.parse` is no longer than the reply and neither starts nor ends with white space |
| ResponseNormalization.RemoveMarkerPassThrough | convex/trademarks.ts:143 | a prefix without the marker's first unit passes through the replace unchanged |
| ResponseNormalization.MarkerEatsNewline | convex/trademarks.ts:143 | a newline directly after a marker is removed together with it |
| ResponseNormalization.InteriorFenceRemoved | convex/trademarks.ts:143 | inside the text, a fence and the newline after it are both removed, so "a```\nb" becomes "ab" |
| ResponseNormalization.ShortNoMarker | convex/trademarks.ts:143 | text shorter than the marker does not contain it |
| ResponseNormalization.CleanWithoutBackticks | convex/trademarks.ts:143 | text without a backtick reaches `JSON.parse` exactly trimmed |
| ResponseNormalization.CleanFencedBlock | convex/trademarks.ts:143 | a fenced block of the form "```json\n" + x + "\n```" around backtick-free x reaches `JSON.parse` as `trim(x)` |
| ResponseNormalization.Or | convex/trademarks.ts:146 | the logical or of two property reads is one of its operands; it is truthy exactly when one of them is; it is a when a is truthy and b otherwise |
| ResponseNormalization.AliasValue | convex/trademarks.ts:146 | only an object has an alias; the alias is truthy exactly when one of `trademarks`, `names`, `data` is, and the first truthy one in that order is chosen; with neither `trademarks` nor `names` truthy it is `data`, whatever that holds |
| ResponseNormalization.FirstArray | convex/trademarks.ts:151 | `find(Array.isArray)` fails exactly when no value is an array, and otherwise returns the first array |
| ResponseNormalization.Candidates | convex/trademarks.ts:146-153 | null throws; a bare array is used as is; primitives and objects without a truthy alias give []; a truthy array alias is used; a truthy non-array alias falls back to the first array field or []; the candidates are always empty or an array found in the value |
| ResponseNormalization.EmptyTrademarksWins | convex/trademarks.ts:146 | an empty `trademarks` array is truthy and hides a full `names` array |
| ResponseNormalization.AliasTolerance | convex/trademarks.ts:146-153 | a bare array, `{trademarks: xs}` and `{data: xs}` give the same candidates |
| ResponseNormalization.FieldText | convex/trademarks.ts:162-164 | a falsy or missing field gives its placeholder, and a truthy one is converted with `String()` |
| ResponseNormalization.Coerce | convex/trademarks.ts:161-165 | a null entry throws, and a coerced record's description has at most 100 code units |
| ResponseNormalization.CoerceFields | convex/trademarks.ts:161-165 | coercion succeeds exactly when all three conversions do; name and industry are converted or defaulted; the description is the first min(100, length) units of its text; nothing is trimmed |
| ResponseNormalization.CoercePrimitive | convex/trademarks.ts:161-165 | a string, number, boolean or array entry gets all three placeholders |
| ResponseNormalization.CoerceAll | convex/trademarks.ts:161 | `map` succeeds exactly when every entry coerces, and then maps them one to one, in order |
| ResponseNormalization.ValidTrademarks | convex/trademarks.ts:161-165 | the result has min(10, n) records taken from the first candidates in order, and it fails exactly when one of those does not coerce |
| ResponseNormalization.OnlyFirstTenRead | convex/trademarks.ts:161 | candidates after the tenth never affect the result |
| ResponseNormalization.NullCandidateThrows | convex/trademarks.ts:161-162 | a null among the first ten candidates makes the coercion throw |
| ResponseNormalization.RecordRoundTrip | convex/trademarks.ts:161-165 | a record with non-empty fields and a description of at most 100 units survives coercion unchanged |
| ResponseNormalization.RecordsRoundTrip | convex/trademarks.ts:161-165 | up to ten such records in a JSON array come back unchanged and in order |
| ResponseNormalization.Normalize | convex/trademarks.ts:140-165 | an unparseable reply or a top-level null gives the parse failure; no other ConvexError arises; it succeeds exactly when the reply parses to a non-null value whose first ten candidates all coerce, and the success is that coercion, with at most ten entries; a throw while coercing is the non-Convex error, not the parse failure |
| ConvexErrors.RateLimitError | convex/trademarks.ts:76-80 | the rejection is an object payload carrying "Rate limit exceeded. Please try again later." and the limiter's retry time |
| TrademarkActions.Latest | convex/trademarks.ts:20-29 | latest is absent exactly when the table is empty, and otherwise is a row of the table |
| TrademarkActions.LatestAfterInsert | convex/trademarks.ts:42-46 | after an insert, the new row is the latest, whatever the table held |
| TrademarkActions.KeyConfigured | convex/trademarks.ts:88 | the key check fails exactly for an unset or empty variable |
| TrademarkActions.Catch | convex/trademarks.ts:174-179 | a ConvexError is rethrown unchanged and anything else becomes the generic failure |
| TrademarkActions.Attempt | convex/trademarks.ts:115-165 | a provider throw is not a ConvexError; a null or empty reply is "Failed to generate trademarks"; a non-empty reply gives exactly the normalisation's outcome; only those and the parse failure occur; at most ten names |
| TrademarkActions.Generate | convex/trademarks.ts:68-181 | a rejection carries the limiter's retry time; the missing key is reported exactly for an admitted call without a key; the error set is closed; success needs admission, a key and a completed call, and gives at most ten names; an admitted, keyed call whose non-empty reply normalises returns the normalised names, one whose reply fails to normalise fails with what the outer handler makes of that throw, and a provider throw gives the generic failure |
| TrademarkActions.EmptyContentFails | convex/trademarks.ts:132-135 | an admitted call whose reply is null or empty fails with "Failed to generate trademarks" |
| TrademarkActions.UnparseableFails | convex/trademarks.ts:141-158 | a reply the parser rejects, or one that is null, fails with "Failed to parse OpenAI response" |
| TrademarkActions.NullCandidateFails | convex/trademarks.ts:146-179 | a null among the first ten candidates, whether from a bare array or an alias, escapes the inner handler and becomes the generic failure |
| TrademarkActions.ProviderFailureFails | convex/trademarks.ts:115-179 | a throwing provider call becomes the generic failure |
| TrademarkActions.SuccessIsNormalized | convex/trademarks.ts:132-173 | a success had a non-empty reply, and returns exactly what normalisation gives for it |
| TrademarkActions.NormalizedIsSuccess | convex/trademarks.ts:132-173 | conversely, an admitted, keyed call whose non-empty reply normalises succeeds with those names |
| TrademarkActions.FencedRecordsGenerate | convex/trademarks.ts:139-173 | up to ten well-formed records written as a JSON array inside a "```json" fence come back from an admitted call with a configured key unchanged and in order, when the array's text contains no backtick |
| TrademarkActions.Deployment.constructor | convex/schema.ts:4-14 | a fresh deployment has an empty `trademarks` table |
| TrademarkActions.Deployment.SaveTrademarks | convex/trademarks.ts:32-48 | the table grows by exactly one row, holding the names, the server time and the identifier, and that row becomes the latest |
| TrademarkActions.Deployment.GetLatestTrademarks | convex/trademarks.ts:20-29 | returns the last row inserted, or nothing for an empty table |
| TrademarkActions.Deployment.GenerateTrademarks | convex/trademarks.ts:64-181 | answers what `Generate` specifies; appends the returned names under the caller's identifier exactly on success; leaves the table unchanged on every failure |
| Fingerprint.ToInt32 | app/page.tsx:55 | `hash & hash` gives a value in the int32 range that is congruent to its input modulo 2^32 |
| Fingerprint.ToInt32Congruent | app/page.tsx:55 | inputs that are congruent modulo 2^32 convert to the same int32 |
| Fingerprint.ShiftLeft5 | app/page.tsx:54 | `hash << 5` is an int32 congruent to 32 * hash modulo 2^32 |
| Fingerprint.Step | app/page.tsx:54-55 | one loop pass gives an int32 congruent to 31 * hash + c modulo 2^32 |
| Fingerprint.StepIsTimes31 | app/page.tsx:54-55 | `((hash << 5) - hash) + c`, reduced to int32, equals `31 * hash + c` reduced to int32 |
| Fingerprint.HashFold | app/page.tsx:51-56 | the loop's result is always an int32 |
| Fingerprint.JavaSumSnoc | app/page.tsx:52-56 | appending a code unit multiplies the polynomial by 31 and adds the unit |
| Fingerprint.StepCongruent | app/page.tsx:54-55 | congruent hashes stay congruent through one step |
| Fingerprint.HashIsJavaHashCode | app/page.tsx:51-56 | the fold equals Java's `String.hashCode` polynomial `s[0]*31^(n-1) + ... + s[n-1]` reduced to int32 |
| Fingerprint.Abs | app/page.tsx:58 | `Math.abs` returns x or -x, and never a negative value |
| Fingerprint.Base36 | app/page.tsx:58 | `toString(36)` gives at least one lower-case base-36 digit and no leading zero, and the digits denote the number |
| Fingerprint.Base36Length | app/page.tsx:58 | a number below 36^k has at most k digits |
| Fingerprint.FingerprintId | app/page.tsx:58 | the id starts with "fp-" and has at least one digit after it |
| Fingerprint.FingerprintIdShape | app/page.tsx:58 | every id is "fp-" followed by 1 to 6 digits with no leading zero, and the digits give back the absolute hash |
| Fingerprint.EmptyFingerprint | app/page.tsx:49-58 | the empty string gets the id "fp-0" |
| Fingerprint.GenerateFingerprint | app/page.tsx:49-58 | the loop computes the fold, so the id is `FingerprintId(str)` and has the id shape |
| HomePage.Delivered | app/page.tsx:96-105 | a ConvexError reaches the page with its payload: the message of an object payload, and no message for a bare string |
| HomePage.TooSoon | app/page.tsx:86 | the first click is never throttled, nor is one 500 ms or more after the last; a click is throttled exactly when an earlier click was recorded and came less than 500 ms before it |
| HomePage.MessageOf | app/page.tsx:105 | `errorData?.message` exists exactly for an object payload |
| HomePage.Mentions | app/page.tsx:107-121 | `errorData?.message?.includes(p)` holds only for a payload with a message, and then exactly when the message includes p |
| HomePage.Classify | app/page.tsx:105-125 | the generic notice is chosen exactly when no pattern is included; otherwise the chosen notice's pattern is included and no earlier pattern is; a payload without a message gives the generic notice |
| HomePage.RateLimitMessageMentionsRate | app/page.tsx:115 | the limiter's message "Rate limit exceeded. ..." includes "Rate limit" |
| HomePage.RateLimitMessageLacks | app/page.tsx:107-114 | the limiter's message includes no pattern that starts with a letter it does not contain, such as "Daily limit" or "Hourly limit" |
| HomePage.RateLimitNotice | app/page.tsx:115-118 | the rate-limit rejection shows the per-minute notice, whatever its retry time |
| HomePage.ServerErrorNotice | app/page.tsx:105-125 | every error the action throws shows the per-minute notice if the limiter rejected the call, and the generic notice otherwise |
| HomePage.Page.constructor | app/page.tsx:19-23 | the initial state: no names, not busy, empty identifier, last click time 0 |
| HomePage.Page.Mount | app/page.tsx:62-66 | the identifier becomes the fingerprint id of the serialized data, and nothing else changes |
| HomePage.Page.BeginGenerate | app/page.tsx:81-93 | an empty identifier stops the click; a click within 500 ms of the last recorded one is throttled; otherwise the click time is recorded and both busy flags are set; a stopped click changes nothing |
| HomePage.Page.FinishGenerate | app/page.tsx:95-129 | the list is replaced only on success; a failure yields its classified notice; both busy flags are always cleared |
| HomePage.Page.HandleGenerate | app/page.tsx:81-130 | one click from start to finish: ignored or throttled clicks touch neither page nor server; a click that passes the guards runs the action with the page's identifier and shows its names or notice; the server table grows exactly on success; the page ends idle |

## Left out

- The token-bucket rate limiter (lines 9-17) and its `limit` call: its answer is an input (`Admission`). Its refill arithmetic belongs to a library and is not part of this model.
- `checkRateLimit` (lines 51-61) only forwards the limiter's `check`. That call is opaque, so the action is not modelled.
- The OpenAI client, the prompt, the model name, the temperature and the token limit (lines 84-130) are foreign code. The provider call is an input (`Completion`). The provider reply is either a throw or the content of the first choice; a reply with an empty `choices` array, whose read at line 132 throws a TypeError, is folded into `ProviderThrew`, which has the same outcome.
- `JSON.parse` is a parameter. How it orders keys and handles duplicate keys is assumed to be reflected in the value it returns. Number formatting for `String()` comes with the number (`Num.text`). An out-of-range literal such as `1e400` parses to `Infinity`; `Num` carries it only as a non-zero value with its text ("Infinity"), which is all the source observes of it.
- `ctx.runMutation` (line 168) is modelled as a direct call to `SaveTrademarks`. A failure of the mutation, transaction retries and the query engine are not modelled.
- Console logging (lines 137, 155-156, 175; page line 103) has no effect on the model.
- Browser data collection and `JSON.stringify` (page lines 31-50): the serialized fingerprint string is the input of `GenerateFingerprint` and `Page.Mount`.
- Rendering, toasts and their texts and durations, the clipboard, `handleCopy` and `setTimeout` (page lines 70-79 and 132-275): a toast is represented by a `Notice`.
- Concurrency and React state batching: each click is modelled as running to completion before the next one starts. The state read by a click is the state left by the previous one.
- Transport failures between page and server are not modelled. `ClientError` can carry no data, and `Classify` handles that case, but `HandleGenerate` never produces one.
- The `by_ip` index (convex/schema.ts:13) is not used by any query, so the model has none.
- next.config.js and next.config.ts only configure the build and are not part of this model.
- TrademarkActions.Generate: assumes that the provider client's constructor (line 84), which runs before the key check and outside the `try`, does not throw. Its behaviour for an unset key belongs to the provider's library, which is not part of this model; if it throws, an unset variable ends the call with an error that is not a ConvexError, and only an empty variable gives the missing-key error.
- JsonValue.JoinElements: its contract states only the empty join. The full result is given by its definition, and its callers are specified through `StringOf`.
