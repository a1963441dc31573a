# floorplan-analyser: the decision logic, modelled in Dafny

The application has two tools. One analyses floor plans and the other
analyses chattels (furniture). Each tool has a browser form that uploads an
image to a server endpoint. The endpoint forwards the image to an AI service
and shapes the service's text reply into JSON. A basic-auth gate stands in
front of every page. This project models the four pieces of that code that
make decisions, and proves what they promise:

- **The basic-auth gate** (`BasicAuth`, middleware.ts). It is a pure function
  of the path, the `Authorization` header and the configured username and
  password. It relies on `Text` for the JavaScript `split`/`startsWith`
  semantics, and on `Base64` for `atob`. `Base64` follows the WHATWG
  "forgiving-base64 decode" over the alphabet of section 4 of RFC 4648. A
  padded RFC 4648 encoder is its partner in a round-trip proof.
- **The chattel endpoint** (`ChattelRoute`). It extracts the first substring
  the pattern `/\{[\s\S]*\}|\[[\s\S]*\]/` matches. The extraction is proved to
  be the leftmost-starting match, and there the longest, ending at the last
  closer in the text. It then selects the array shape or the `{items: [...]}`
  shape, and filters the entries with `isChattelItem`. The handler is a method
  that reassigns its local `items`, as the source does.
- **The floor-plan endpoint** (`FloorPlanRoute`). It is a pure function from
  the request, the API key, the AI service and `JSON.parse` to a status and a
  JSON body.
- **The two upload forms** (`FloorPlanForm.UploadForm`,
  `ChattelForm.AnalyzerForm`). Each is a class whose fields are the
  component's `useState` values. Its methods are the event handlers: file
  picked, button clicked, progress interval fired, fetch settled. Both forms
  share the progress step `Math.min(p + 10, 90)` from `Progress`.

Shared vocabulary lives in `Json` and `Http`:

- `Json` holds the JSON value datatype, property lookup and JavaScript
  truthiness.
- `Http` holds the multipart request, the AI reply, the response and the
  fetch outcome.

Optional values (`null`/`undefined`) are `Wrappers.Option`.

Inputs that stand for code outside the model:

- `JSON.parse` is a parameter `parse: string -> Option<Json>`. `None` means it
  throws.
- The AI service is a parameter `claude: string -> SdkOutcome`, keyed by the
  media type the endpoint declares for the image. Its outcome is an error
  (`Error` or another thrown value) or a list of content blocks.
- Environment variables are `Option<string>` parameters.
- The object URL made for a preview is a parameter of `SelectFile`.
- A thrown value is `ErrorInstance(message)` or `OtherValue`.
- Where the code reads a property of `null`/`undefined`, the thrown message
  is V8's wording, `Cannot read properties of null (reading 'error')`.

Behaviour worth knowing:

- The chattel endpoint replaces only an empty declared MIME type by
  `image/jpeg`. Any other type, recognised or not, is forwarded unchanged.
- The order of the two alternatives does not matter. Both are tried at each
  start, and they begin with different characters (`LeftmostOpenerWins`).
- The greedy body joins two separate JSON blobs into one unparseable match
  (`GreedyAcrossObjects`).
- The floor-plan form does not reset `results` when a new file is picked.
  Only the chattel form does.
- Neither form clears `error` on a successful analysis. Only picking a file
  clears it.
- The progress interval is cleared only after a response arrives. A fetch
  that throws leaves its interval registered (field `timers`), and the
  interval keeps firing. Each `Tick` needs only some registered interval.
  While an analysis is pending, progress stays a multiple of ten in [0, 90]
  and never decreases. Once the analysis is over, a leftover interval can
  bring a progress of 100 back to 90. The bar is not shown then.

## Model

| member | source | states |
|---|---|---|
| `BasicAuth.Middleware` | middleware.ts:7-49 | an `/api/` path always passes; an unconfigured gate (username or password unset or empty) always passes; the only other answer is the exact 401 challenge, and it only comes from a configured gate on a page path |
| `BasicAuth.PassesIff` | middleware.ts:26-38 | on a configured gate and a page path, the request passes if and only if the header is non-empty and its decoded credentials are exactly (username, password) |
| `BasicAuth.Credentials` | middleware.ts:28-32 | there are no credentials exactly when `atob` fails. Otherwise the user is the decoded text up to its first `:`. The password is the text after that `:` up to the next `:` or the end, and is `undefined` exactly when the text has no `:`. Neither field contains `:` |
| `BasicAuth.SchemeIgnored` | middleware.ts:28 | the word before the first space is never inspected: `Bearer x` and `Basic x` get the same answer |
| `BasicAuth.MissingTokenRejected` | middleware.ts:28-37 | a header without a space gives `atob(undefined)`, which throws, so the answer is 401 |
| `BasicAuth.DecodeFailureRejected` | middleware.ts:29-37 | a token `atob` rejects leads to the 401 challenge, not to an escaping error |
| `BasicAuth.NoHeaderRejected` | middleware.ts:40-48 | a configured gate without a header answers status 401, body `Authentication required`, header `WWW-Authenticate: Basic realm="Secure Area"` |
| `BasicAuth.ColonCredentialNeverMatches` | middleware.ts:30-32 | a configured password or username containing `:` can never match, whatever the header |
| `BasicAuth.ExtraFieldsAccepted` | middleware.ts:30-33 | decoded text `user:pass:extra` is accepted: only the first two `:`-fields are compared |
| `BasicAuth.LeadingFields` | middleware.ts:30 | the first two `:`-fields of `user:pass:extra` are `user` and `pass` |
| `BasicAuth.EmptyHeaderNeverDecodes` | middleware.ts:27-30 | the token expression of lines 28-30, applied to an empty header, fails to decode; the lemmas use this to rule the empty header out, which line 27 skips |
| `BasicAuth.DecodedPairPasses` | middleware.ts:27-33 | any header whose token decodes to exactly `user:pass`, with the configured pair, passes |
| `BasicAuth.EncodedCredentialsPass` | middleware.ts:26-34 | a header `<scheme> base64(user:pass)` with the configured pair passes |
| `Base64.DecodeEncode` | middleware.ts:30 | `atob` decodes a padded RFC 4648 encoding back to the exact bytes |
| `Base64.UndefinedIsNotBase64` | middleware.ts:28-30 | `atob("undefined")` fails: nine characters, one more than a multiple of four |
| `Base64.CharOf` | middleware.ts:30 | the encoding character of each value is read back as that value |
| `Base64.CharOfSextetOf` | middleware.ts:30 | every alphabet character is the encoding character of its value |
| `Base64.DecodeSextets` | middleware.ts:30 | n sextets decode to floor(6n/8) bytes |
| `Base64.SextetsRoundTrip` | middleware.ts:30 | decoding the sextets of an encoding gives back the bytes |
| `Text.Split` | middleware.ts:28 | `split` yields at least one field and no field contains the separator |
| `Text.JoinSplit` | middleware.ts:30 | joining the fields of a split with the separator restores the text |
| `Text.SplitJoin` | middleware.ts:30 | splitting a join of separator-free parts restores the parts |
| `Text.SplitAtFirstSeparator` | middleware.ts:28 | the text before the first separator is the first field, and the rest splits on its own |
| `Text.SplitFirstField` | middleware.ts:30 | the first field of a split is the text before the first separator; it is the only field exactly when it is the whole text; the other fields are the split of what follows |
| `Text.FieldAtShift` | middleware.ts:30 | a field of the text after an offset is a field of the whole text at that offset |
| `Text.SubstringFromZero` | src/app/api/analyze-floor-plan/route.ts:120 | `substring(0, n)` is the prefix of length `min(n, len)` |
| `Http.MessageOf` | src/app/api/analyze-floor-plan/route.ts:129-132 | an `Error`'s message is used, the fallback text for any other thrown value |
| `Http.SupportedTypesListed` | src/app/api/analyze-floor-plan/route.ts:15-20 | the four supported types joined by `", "` |
| `Json.Lookup` | src/app/api/analyze-chattels/route.ts:98 | a property read finds an own field of an object, and is `undefined` for every other value |
| `ChattelRoute.ChattelItemIff` | src/app/api/analyze-chattels/route.ts:12-24 | an item is exactly a non-null, non-array object whose `name` is a string and whose `replacementCost` and `confidence` are numbers |
| `ChattelRoute.ExtraFieldsIgnored` | src/app/api/analyze-chattels/route.ts:18-23 | adding or changing any other field does not change whether a value is an item |
| `ChattelRoute.KeepItems` | src/app/api/analyze-chattels/route.ts:95 | the filter keeps only well-formed items and never lengthens the list |
| `ChattelRoute.KeepItemsMembers` | src/app/api/analyze-chattels/route.ts:95 | a value is kept if and only if it is in the list and well formed |
| `ChattelRoute.KeepItemsIsSubsequence` | src/app/api/analyze-chattels/route.ts:95 | the kept items are a subsequence of the input, in the original order |
| `ChattelRoute.KeepItemsAppend` | src/app/api/analyze-chattels/route.ts:95 | filtering a concatenation is the concatenation of the filtered parts |
| `ChattelRoute.KeepItemsIdentity` | src/app/api/analyze-chattels/route.ts:95 | nothing is dropped if and only if every element is well formed |
| `ChattelRoute.SelectItems` | src/app/api/analyze-chattels/route.ts:94-102 | an array is filtered; an object with an array `items` has `items` filtered; anything else gives `[]` |
| `ChattelRoute.SofaExample` | src/app/api/analyze-chattels/route.ts:94-95 | `[{Sofa, 500, 0.9}, {"bad": "entry"}]` keeps exactly the sofa |
| `ChattelRoute.MatchesAtChars` | src/app/api/analyze-chattels/route.ts:90 | a span matches the pattern if and only if it has two or more characters, starting with `{` and ending with `}`, or starting with `[` and ending with `]` |
| `ChattelRoute.LastIndexOf` | src/app/api/analyze-chattels/route.ts:90 | the index found holds the character and no later index does; `None` means the character is absent |
| `ChattelRoute.MatchFrom` | src/app/api/analyze-chattels/route.ts:90 | from a start index on: the first start with any match, the longest match there; `None` if no later start matches |
| `ChattelRoute.FirstMatch` | src/app/api/analyze-chattels/route.ts:90 | no match at all gives `None`; otherwise the span starts at the leftmost index where the pattern matches and is the longest there, ending at the last occurrence of its closer in the text |
| `ChattelRoute.LongestEndsAtLastCloser` | src/app/api/analyze-chattels/route.ts:90 | a longest match ends at the last occurrence of its closer |
| `ChattelRoute.ExtractJson` | src/app/api/analyze-chattels/route.ts:90-92 | the text handed to `JSON.parse` is missing exactly when nothing matches; otherwise it is the substring `text[i..j]` at the leftmost start `i` where the pattern matches, with `j` the greatest end there |
| `ChattelRoute.GreedyAcrossObjects` | src/app/api/analyze-chattels/route.ts:90 | `a{1}b{2}` yields `{1}b{2}`: greedy to the last closer |
| `ChattelRoute.LeftmostOpenerWins` | src/app/api/analyze-chattels/route.ts:90 | `[{}]` yields the whole array although the object alternative comes first |
| `ChattelRoute.DeclaredMediaType` | src/app/api/analyze-chattels/route.ts:69-74 | an empty type is declared as `image/jpeg`; any other type is forwarded unchanged |
| `ChattelRoute.AnalyzeChattels` | src/app/api/analyze-chattels/route.ts:26-113 | the status is 200, 400 or 500. A 400 `No image provided` comes exactly for an absent or empty field. With no key the stub `{items: [], notes}` comes first, before the bytes are read. A service error, a missing or non-text first block, or a parse failure gives 500 `Failed to analyze image` without the cause. No match gives 200 `{items: []}`; a parsed value gives 200 `{items: SelectItems(value)}`; every 200 body holds only well-formed items |
| `FloorPlanRoute.ServiceResponse` | src/app/api/analyze-floor-plan/route.ts:65-138 | the status is 200 exactly when the first block's text is non-empty and parses, and then the body is the parsed value itself. Empty text gives 500 `Empty response from Claude API`. Every 500 body carries a string `error` |
| `FloorPlanRoute.AnalyzeFloorPlan` | src/app/api/analyze-floor-plan/route.ts:25-151 | the status is 400 exactly for a missing image or a type outside the four. The stub comes with 200 only after both checks pass and only without a key; with a key the service's reply for the image's own type decides. Every non-200 body has a string `error` |
| `FloorPlanRoute.MissingImageFirst` | src/app/api/analyze-floor-plan/route.ts:31-36 | a missing image gives 400 `No image provided` before the type is checked |
| `FloorPlanRoute.UnsupportedTypeListed` | src/app/api/analyze-floor-plan/route.ts:39-44 | any other type gives 400 naming `image/jpeg, image/png, image/gif, image/webp` |
| `FloorPlanRoute.PlainTextRefused` | src/app/api/analyze-floor-plan/route.ts:39-44 | `text/plain` gives 400 |
| `FloorPlanRoute.ParsedReplyPassesThrough` | src/app/api/analyze-floor-plan/route.ts:109-111 | parseable text is returned unchanged with 200, a `{"error": ...}` object included |
| `FloorPlanRoute.UnparseablePreview` | src/app/api/analyze-floor-plan/route.ts:112-124 | unparseable text gives 500 with `rawResponsePreview` a prefix of the text of length `min(100, len)` |
| `FloorPlanRoute.NonTextFirstBlockIsEmpty` | src/app/api/analyze-floor-plan/route.ts:93-101 | a non-text first block gives 500 `Empty response from Claude API` |
| `FloorPlanRoute.ServiceErrorMessage` | src/app/api/analyze-floor-plan/route.ts:125-138 | a service failure gives 500 with the `Error`'s message, or `Error communicating with Claude API` |
| `Progress.Advance` | src/components/floor-plan-upload-form.tsx:59-61 | one step never exceeds 90, never lowers a value at or below 90, stays put only at 90, and keeps multiples of ten |
| `Progress.AdvanceTimesValue` | src/components/floor-plan-upload-form.tsx:59-61 | k steps from p (at most 90) give `min(p + 10k, 90)` |
| `Progress.PendingProgressBounded` | src/components/chattel-analyzer-form.tsx:52-54 | from 0, any number of steps stays a multiple of ten in [0, 90], and nine steps reach 90 |
| `Progress.AdvanceTimesMonotone` | src/components/floor-plan-upload-form.tsx:59-61 | more steps never mean less progress |
| `FloorPlanForm.UploadForm.constructor` | src/components/floor-plan-upload-form.tsx:24-29 | initial state: not loading, progress 0, no file, preview, results or error |
| `FloorPlanForm.UploadForm.SelectFile` | src/components/floor-plan-upload-form.tsx:33-47 | `error` is cleared first. An unsupported type sets the message listing the types and keeps `file`/`preview`. A supported file sets `file` and `preview` and leaves `results` unchanged |
| `FloorPlanForm.UploadForm.Click` | src/components/floor-plan-upload-form.tsx:49-61 | a click does something if and only if a file is set and nothing is loading; then loading starts at progress 0 with one more interval |
| `FloorPlanForm.UploadForm.Tick` | src/components/floor-plan-upload-form.tsx:59-61 | `progress := min(progress + 10, 90)`; while loading it never decreases and stays at most 90 |
| `FloorPlanForm.UploadForm.Complete` | src/components/floor-plan-upload-form.tsx:63-88 | loading ends in every case. A response sets progress to 100 and clears its interval; a thrown fetch keeps progress below 100 and leaks the interval. A non-ok status, an unreadable body, a null body or a truthy `error` set `error` and keep `results`; otherwise `results := data` |
| `ChattelForm.AnalyzerForm.constructor` | src/components/chattel-analyzer-form.tsx:17-22 | initial state: no file or preview, not analysing, progress 0, results `[]`, error null |
| `ChattelForm.AnalyzerForm.SelectFile` | src/components/chattel-analyzer-form.tsx:24-39 | any `image/` type sets `file` and `preview` and resets `results` to `[]`; any other selection leaves all three unchanged; `error` is null afterwards |
| `ChattelForm.AnalyzerForm.Click` | src/components/chattel-analyzer-form.tsx:41-54 | a click does something if and only if a file is set and nothing is being analysed; then analysis starts at progress 0 |
| `ChattelForm.AnalyzerForm.Tick` | src/components/chattel-analyzer-form.tsx:52-54 | the same capped, non-decreasing step as the floor-plan form |
| `ChattelForm.AnalyzerForm.Complete` | src/components/chattel-analyzer-form.tsx:56-75 | analysis ends in every case. Only an ok response with a non-null body sets `results := data.items`. A non-ok status, an unreadable body or a thrown fetch keep `results`. A response sets progress to 100 |

The class invariants `Valid()` of the two forms state that:

- progress is always a multiple of ten in [0, 100];
- while a submission is pending, progress is at most 90, a file is set and its
  interval is registered;
- `file` and `preview` are set together, and a set file has an accepted type;
- for the chattel form, `error` is null in every reachable state.

## Left out

- Rendering (all JSX), `toast`, `console` logging and `URL.createObjectURL`:
  these are side channels. The object URL is a parameter of `SelectFile`.
- The page and layout files: static markup with no logic.
- The AI SDK call itself: a network client. Only its outcome is modelled, as
  `claude`, keyed by the media type sent. The prompt text and the model name
  are not modelled.
- `JSON.parse`: a library call, kept abstract as `parse`. `JSON.stringify` in
  `NextResponse.json` is taken to render the value unchanged. The key order
  of objects is not modelled, because objects are maps.
- Reading the image bytes and encoding them in base64 for the AI service
  (`arrayBuffer`, `Buffer.toString('base64')`): the bytes only flow to the
  service. For a text form field, the chattel endpoint's `arrayBuffer` call
  throws, and that case is modelled.
- A throw from `new Anthropic(...)` in the floor-plan endpoint is not modelled.
  The outer `catch` it would reach is modelled for a request whose form data
  cannot be read.
- `config.matcher`, `runtime` and `maxDuration`: framework routing and
  platform settings.
- Timers and async interleaving. Interval firings, clicks and fetch
  completions are discrete events. The pause between the response and
  `response.json()` is folded into one `Complete` event.
- React render batching and stale closures: each handler sees the state left
  by the previous event.
- Numbers: a JSON number is a real and only its zero-ness is used, for
  truthiness. `Math.round(confidence * 100)` and `toLocaleString` belong to
  rendering.
- Strings: a `char` stands for a UTF-16 code unit. `substring(0, 100)` cutting
  a surrogate pair is not distinguished.
- The environment's `atob` is taken to follow the WHATWG algorithm. Its
  input's conversion to a string is modelled only for `undefined`.
- Header-value normalisation by the `Headers` object (trimming) is not
  modelled. The header is taken as delivered.
- `FloorPlanForm.UploadForm.SelectFile`: requires that no analysis is loading,
  because the file input is disabled then (floor-plan-upload-form.tsx:120).
- `FloorPlanForm.UploadForm.Complete`: the message for reading `error` off a
  `null` body is V8's wording (`Cannot read properties of null (reading
  'error')`); browsers with other engines word it differently.
