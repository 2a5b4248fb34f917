# immune: the test-execution engine, modelled in Dafny

immune runs a suite of HTTP test cases against an API. The suite comes from a
JSON file. Each test case names setup steps, a request (endpoint, method and a
JSON body with `{variable}` references), the status code it expects, whether
it expects a body, and how many webhook callbacks it expects. Setup test cases
capture values from their responses into a variable store, and later requests
read them back. A callback carries the id that the engine injected into the
request body, and its signature is checked with HMAC. A companion receiver
authenticates incoming events and counts them.

This project models the engine's core and proves what it promises:

- `Json`: the JSON-like tree. Go maps are association lists kept in
  iteration order.
- `Variables`: the path resolver of `variable_map.go` (`getKeyInMap`, `getM`,
  `getArrayValue`) and the variable store (`VariableMap`).
- `CallbackInjection`: `InjectCallbackID` of `callback.go`.
- `Urls`: the URL template of `url/url.go` (`Parse`, `nextVariable`,
  `ProcessWithVariableMap`).
- `Requests`: the body template of `exec/request.go` (`traverse`).
- `Executors`: the two step runners of `exec/executor.go`.
- `SignatureVerifiers`: `callback/signature_verifier.go`, with hex decoding
  and the replay window.
- `Methods`: `method.go`.
- `Systems`: suite validation (`system/system.go`) and the suite runner
  (`system/run.go`).
- `Configs`: `config/config.go`.
- `Auth`: `auth/authenticator.go`.
- `RecvLog`: `recv/log.go`.
- `GoStrings` and `Http` state the pieces of Go's `strings`, `strconv` and
  `net/http` that the engine relies on. `Cases` holds the test-case records of
  `case.go`.

The model follows the code as written wherever the code and its tests or
comments disagree:

- `ExecuteTestCase` returns nil when a body arrives that the case did not
  want, because it wraps a nil error. The case then passes without waiting for
  callbacks and without truncating.
- A callback's `Err` field is never read.
- An expired deadline only leaves the `select`, so the remaining iterations of
  the callback loop receive nothing.
- `traverse` returns as soon as it has walked a nested map, so later entries
  of the enclosing map are never visited.

Code that changes state step by step is written as methods with loops. Each
method is proved equal to a specification function, and the lemmas are stated
about those functions. The methods and their functions are:

- `GetM` and `Descend`;
- `ProcessResponse` and `Capture`;
- `Parse` and `ParseUrl`;
- `ProcessWithVariableMap` and `Substitute`;
- `Walk` and `Traverse`;
- `Clean` and `CleanSpec`;
- `Run` and `RunSpec`;
- the executor methods and `SetupRun` and `TestRun`.

Objects whose fields the source updates in place are classes:

- `VariableMap`, `Request` and `Executor`;
- `System`, `Config` and `Log`.

## Model

| member | source | states |
|---|---|---|
| Variables.GetArrayValue | variable_map.go:142-172 | a success means that the text between the first `[` and the first `]` parses as an index, the name holds a list, the index is inside it, and the result is that element; the largest `int64` index, whose `ix+1` wraps, gives the index panic instead |
| Variables.IndexStepErrors | variable_map.go:156-169 | for a well-formed `name[i]`: "not found" exactly when the name is absent, the dynamic type when the value is not a list, the length when the list is too short and `i` is below the largest `int64`, the index panic exactly when the list is too short and `i` is the largest `int64` (`ix+1` wraps, so the length check passes), and never an index-syntax error |
| Variables.IndexLookupErrors | variable_map.go:164-171 | the same error cases for the lookup half alone, with the length check done on the wrapped `ix+1` |
| Variables.IndexCheckedBeforeLookup | variable_map.go:143-154 | a malformed, unparsable or negative index fails the same way whatever the map holds, because the index is checked before the name is looked up |
| Variables.GetM | variable_map.go:105-134 | the loop that goes one level deeper per segment returns exactly `Descend` of the whole path, error included |
| Variables.DescendError | variable_map.go:111-131 | `getM` fails exactly when some segment does not lead to an object; the error's prefix is the dotted path up to and including the first such segment, and its cause is that segment's own failure at the object reached just before it |
| Variables.DescendReached | variable_map.go:111-131 | `getM` succeeds exactly when every segment leads to an object |
| Variables.DescendErrorPrefix | variable_map.go:111-131 | the failing prefix is `track` followed by the segments up to the failing one, joined by dots |
| Variables.DescendErrorCause | variable_map.go:112-128 | the walk up to the failing segment succeeds, and the error's cause is why that segment fails there (not found, bad index, or not an object with its type) |
| Variables.GetKeyInMapPath | variable_map.go:66-101 | a dotted path whose non-terminal steps may use `name[i]` reads exactly the value it addresses, and fails exactly when nothing is there; the last segment is a plain key |
| Variables.GetKeyInMapStep | variable_map.go:72-84 | a dot-free path of one step (`name` or `name[i]`) reads exactly the value that step addresses |
| Variables.GetKeyInMapErrorPrefix | variable_map.go:66-101 | the prefix in a path error is the whole field, or the part of the field that ends right before one of its dots |
| Variables.GetKeyInMap | variable_map.go:66-101 | no contract of its own: `GetKeyInMapPath` and `GetKeyInMapStep` state what it reads, `GetKeyInMapErrorPrefix` which prefix its errors name |
| Variables.ResolveStep | variable_map.go:112-123 | resolving the text of a well-formed step finds exactly what the step addresses |
| Variables.DescendSteps | variable_map.go:105-134 | walking the texts of well-formed steps reaches exactly the object the steps address |
| Variables.AsCaptured | variable_map.go:53-58 | the type switch admits strings and integers and nothing else, and keeps the value |
| Variables.StringIn | variable_map.go:22-34 | ("", false) for an absent key; a stored string as it is; a stored integer in decimal, which parses back to the integer |
| Variables.VariableMap.constructor | variable_map.go:15-17 | a new store is empty |
| Variables.VariableMap.GetString | variable_map.go:22-34 | `GetString` reads the store as `StringIn` says |
| Variables.VariableMap.Get | variable_map.go:37-40 | the stored value with its native type, and present exactly when the key is stored (nil otherwise) |
| Variables.VariableMap.ProcessResponse | variable_map.go:44-64 | the loop leaves the store and the error exactly as `Capture` computes them from the old store |
| Variables.CaptureAll | variable_map.go:44-64 | with distinct names, the capture succeeds exactly when every path resolves to a string or an integer, and then each variable holds the value found at its path |
| Variables.CaptureFirstFailure | variable_map.go:45-58 | a failed capture reports the first entry that cannot be captured: its path error, or its name with the unsupported type |
| Variables.CaptureFrame | variable_map.go:60 | a capture writes only the listed variables, and every other stored variable keeps its value |
| CallbackInjection.InjectDotFree | callback.go:34-46 | a dot-free field: absent gives "does not exist", not an object gives "not an object", otherwise that object now maps `immune_callback_id` to the value and nothing else in the body changes |
| CallbackInjection.InjectDotted | callback.go:48-55 | a dotted field fails exactly when `getM` over all its segments fails, with that error unchanged; otherwise the object `getM` reaches maps the id key to the value and keeps its other entries |
| CallbackInjection.InjectDottedFrame | callback.go:48-53 | a dotted injection changes only the top-level entry its first segment names, and keeps the key order |
| CallbackInjection.InjectDottedPathFrame | callback.go:48-53 | at every depth `k`, the object `getM` passes through keeps its keys and every entry other than the one segment `k` names; through `name[i]`, that list keeps its length and every element other than element `i` |
| CallbackInjection.WriteAtPathFrame | variable_map.go:105-138 | the same frame for the rewrite along any path that `getM` walks, proved by induction on the depth |
| CallbackInjection.InjectCallbackID | callback.go:31-56 | no contract of its own: `InjectDotFree`, `InjectDotted`, `InjectDottedFrame` and `InjectDottedPathFrame` state its errors, the write of the id key and what it leaves alone |
| CallbackInjection.WriteAtDescend | callback.go:48-53 | writing along a path fails exactly when `getM` fails, with the same error, and walking the path again reaches the same object with the key set |
| CallbackInjection.ReplaceSegmentFrame | callback.go:44-53 | replacing the value under a segment changes no other key and keeps the key order; through `name[i]` it changes only the addressed list element |
| Urls.NextVariable | url/url.go:75-104 | the scanning loop finds what `NextVar` says: no `{`, an unclosed `{` (the panic), or the first `{...}` with its name (empty for `{}`) and the position of its `}` |
| Urls.ScanFrom | url/url.go:81-86 | the `range` loop stops at the first `}` after the `{`, and leaves `closing` at the `{` when there is none |
| Urls.Parse | url/url.go:20-47 | the loop returns exactly `ParseUrl` |
| Urls.ParseRecords | url/url.go:20-47 | "url is empty" exactly for ""; an error exactly on an unclosed `{`; otherwise the URL is kept verbatim and records exactly the non-empty names, each once, in order of first occurrence |
| Urls.ParseFromRaw | url/url.go:31-44 | the loop over the shrinking string records the fresh names of the whole scan, and fails as the scan does |
| Urls.FreshMembers | url/url.go:38-43 | the recorded names are exactly the non-empty names not seen before |
| Urls.FreshDistinct | url/url.go:38-43 | no name is recorded twice |
| Urls.FreshOrder | url/url.go:38-43 | names are recorded in order of first occurrence |
| Urls.URL.ProcessWithVariableMap | url/url.go:50-67 | with no names it returns the template unchanged without reading the map; otherwise it returns exactly `Substitute` |
| Urls.NoVariablesUnchanged | url/url.go:51-53 | with no recorded names, processing gives the template whatever the store holds |
| Urls.SubstituteMissing | url/url.go:57-61 | processing fails exactly when a recorded name is missing from the store, and names the first missing one |
| Urls.ReplaceFills | url/url.go:63 | one round of `strings.Replace` fills every placeholder of one name and nothing else, and leaves `{}` literal |
| Urls.SubstituteFills | url/url.go:57-66 | for a template whose stored texts contain no `{` and whose every name is in the store, processing replaces each placeholder by its variable's text |
| Urls.ParseThenProcess | url/url.go:20-67 | end to end, for a template whose literal text has no `{` except in a literal `{}`, whose every name is in the store and whose stored texts contain no `{`: parsing then processing replaces every `{name}` by `GetString(name)` and keeps every `{}` |
| Urls.NextVar | url/url.go:75-104 | a found placeholder closes at a `}` inside the string, and its name contains no `}` |
| Urls.ParseUrl | url/url.go:20-47 | a parsed URL is non-empty and keeps the template text it was parsed from |
| Urls.Substitute | url/url.go:57-66 | a failure names a recorded variable that the store does not hold |
| Urls.ParsedTemplate | url/url.go:20-47 | parsing a template gives the template itself and its proper names, each once |
| Urls.TemplateRawNames | url/url.go:31-104 | the scan of a template reads its placeholders in order |
| Requests.Reference | exec/request.go:30-35 | a string refers to a variable exactly when it has at least three characters and starts with `{` and ends with `}`; the name is what lies between |
| Requests.ReferenceExactly | exec/request.go:30-35 | `Reference(s)` is `name` exactly when `s` is `{name}` with a non-empty name |
| Requests.Request.constructor | exec/executor.go:124-129 | the request holds the given content type, URL, method and body |
| Requests.Request.ProcessWithVariableMap | exec/request.go:19-21 | only the body changes, and it becomes the body of `Traverse`, including the replacements made before a failure |
| Requests.Request.Walk | exec/request.go:25-49 | the loop with its recursive early return computes exactly `Traverse` |
| Requests.TraverseEntries | exec/request.go:26-47 | keys and order are kept; every entry before the stopping one is replaced as `Replacement` says; the walk stops at the first nested map (returning that map's walk) or missing reference; later entries are untouched |
| Requests.TraverseErrorMissing | exec/request.go:36-39 | a failed walk names a referenced variable the store does not hold |
| Requests.TraverseNoReferences | exec/request.go:25-49 | a body with no references is returned unchanged, with no error |
| Requests.Traverse | exec/request.go:25-49 | the walked body has the same keys in the same order as the body it started from |
| Requests.ReplacementKeepsType | exec/request.go:36-41 | a stored reference is replaced by the stored value with its own type: a string stays a string, an integer stays an integer |
| Requests.ReplacementUnchanged | exec/request.go:27-46 | values that cannot refer to a variable (short strings such as `{}`, numbers, booleans and lists) are never rewritten |
| Executors.Executor.constructor | exec/executor.go:31-41 | the executor holds the given store, wait, base URL and id location |
| Executors.Executor.ProcessUrl | exec/executor.go:105-113 | the URL steps return exactly `CaseUrl`: a parse error or a template error wrapped with the case's kind and name, or the processed URL |
| Executors.Executor.ExecuteSetupTestCase | exec/executor.go:44-101 | the step's verdict (with the response body, decode error or unread rest it reports), what it sent, the body and the new store are exactly `SetupRun` of the old store |
| Executors.SetupRunSteps | exec/executor.go:45-71 | a URL or body-template failure sends nothing and leaves the store alone; otherwise the processed URL and body are sent as JSON; a failed exchange leaves the store alone; the rest depends only on the response |
| Executors.SetupResponseCases | exec/executor.go:73-100 | a status mismatch fails and reports the response body; an empty body when one is wanted fails; an undecodable body fails with the decoder's error and the unread rest of the body; a failed capture reports its error and the unread rest; an unwanted body fails; the store changes only when the checks pass and variables are requested, and then exactly as `ProcessResponse` captures; the step passes exactly when the checks pass and the capture succeeds; it never hangs |
| Executors.Executor.ExecuteTestCase | exec/executor.go:104-182 | the step's verdict, what it sent and the body are exactly `TestRun`; the store is not changed |
| Executors.TestStopsBeforeSending | exec/executor.go:105-134 | a URL failure or an injection failure sends nothing and leaves the body as it was; otherwise the id is injected first (when callbacks are on) and then the body is templated; a template failure sends nothing |
| Executors.Executor.CheckResponse | exec/executor.go:141-181 | the checks after the exchange, the callback loop and the truncation give exactly `TestVerdict` |
| Executors.TestVerdictCases | exec/executor.go:141-181 | an empty or undecodable body when one is wanted fails and shows the status code (`%+v` of the response); a pass comes from an unwanted body (the wrapped nil) or from all checks, all callbacks and a successful truncation; the step hangs only on a wait that never ends; a wrong callback id fails; the truncation runs last, and its error is the result |
| Executors.CallbackLoopOutcome | exec/executor.go:162-179 | the callback loop ends as `WaitOutcome` says: the first non-matching id among the callbacks taken before the deadline fails, running out of callbacks blocks, and otherwise every callback has arrived |
| Executors.FirstMismatch | exec/executor.go:172-175 | the first index whose id is not the injected one, or the limit |
| SignatureVerifiers.GetHashFunction | callback/signature_verifier.go:85-113 | exactly the twelve names are known, and a known name gives the algorithm of that name |
| SignatureVerifiers.GetHashFunctionByName | callback/signature_verifier.go:85-113 | every algorithm is found again under its own name |
| SignatureVerifiers.NewSignatureVerifier | callback/signature_verifier.go:30-43 | fails exactly on an unknown algorithm name, and otherwise carries the given settings and the hash function the name says |
| SignatureVerifiers.HexRoundTrip | callback/signature_verifier.go:52-54 | decoding what was hex-encoded gives the bytes back |
| SignatureVerifiers.HexDecodeErrors | callback/signature_verifier.go:54-57 | decoding fails exactly on an odd length or a non-hex character, and reports the first bad character, or the odd length when there is none |
| SignatureVerifiers.HexDecodeBytes | callback/signature_verifier.go:54-57 | on success, each pair of digits gives one byte |
| SignatureVerifiers.HexDecode | callback/signature_verifier.go:54-57 | a decoded signature has one byte for every two digits |
| SignatureVerifiers.Verify | callback/signature_verifier.go:45-83 | a callback is accepted only when its body was read, its signature header decodes to the MAC over `timestamp,body` (with replay protection) or the body, and, with replay protection, its timestamp parses and is at most a minute old |
| SignatureVerifiers.VerifyCases | callback/signature_verifier.go:45-83 | the checks in order: unreadable body, then bad hex, then (with replay protection) unparsable timestamp and age over a minute, then the MAC comparison over `timestamp,body` or the body alone |
| SignatureVerifiers.SignThenVerify | callback/signature_verifier.go:45-83 | a callback signed with the verifier's algorithm and secret over the same input, and fresh enough when replay protection is on, verifies |
| SignatureVerifiers.AgeOfTimestamp | callback/signature_verifier.go:68-69 | away from the top of the `int64` range, the age is the difference between now and the timestamp, in nanoseconds |
| SignatureVerifiers.AgeOfWrappedTimestamp | callback/signature_verifier.go:68-72 | a timestamp so large that `time.Unix` wraps around reads as more than a minute old |
| Methods.IsValid | method.go:31-46 | true exactly for the nine upper-case method names |
| Methods.MethodString | method.go:48-50 | the text of the method, unchanged |
| Methods.UnmarshalJSON | method.go:52-62 | no error exactly when the trimmed text is a known method; otherwise the error names the method, which the receiver holds anyway |
| Methods.UnmarshalKeepsInner | method.go:53-55 | the receiver is the raw text with every leading and trailing `"` dropped |
| Methods.UnmarshalQuoted | method.go:52-62 | a valid method with any number of quotes around it unmarshals to that method, with no error |
| Systems.System.constructor | system/system.go:17-26 | a new suite holds the given fields and does not yet need a callback server |
| Systems.System.Clean | system/system.go:74-128 | the error, the callback settings and the callback flag are exactly `CleanSpec` of the old state; the URLs and the test cases are untouched |
| Systems.System.CleanCases | system/system.go:95-127 | the test-case loop gives the error and the flag exactly as `CheckCases` computes them |
| Systems.CleanOrder | system/system.go:75-93 | the order of the suite-level checks (empty base URL, SSL files, URL syntax); those errors change nothing; past them the wait becomes 5 when it is 0 and is kept otherwise, even when a test case then fails |
| Systems.CleanAccepts | system/system.go:74-128 | `Clean` succeeds exactly when the base URL is set, the SSL files are given when SSL is on, the URL parses and no test case has a problem; otherwise it reports the first case's first problem |
| Systems.CheckCasesFirst | system/system.go:95-125 | the loop's error is the first problem of the first case that has one (empty name, empty endpoint, status outside 100..511, no leading `/`, invalid method, zero callbacks); the flag ends set exactly when it was already set, or a case before that one enables callbacks, or that case fails only on zero callbacks |
| Systems.System.NeedsCallbackServer | system/system.go:130-132 | returns the flag that `Clean` (through `CleanCases`) leaves, which `CheckCasesFirst` characterises: set when it was already set, when a case checked before the first problem enables callbacks, or when that problem is only a zero callback count |
| Systems.CheckCasesKeepsFlag | system/system.go:118-132 | once set, the callback flag stays set whatever later cases do |
| Systems.System.Run | system/run.go:20-113 | the error and the calls made, in order, are exactly `RunSpec` |
| Systems.System.RunAfterStart | system/run.go:38-108 | the part after the server start is exactly `RunAfterServer`: truncator, truncation, verifier, then the nested loops |
| Systems.System.Call | system/run.go:24-106 | a collaborator call records the call and returns its error |
| Systems.Perform | system/run.go:24-106 | a call extends the trace by one; its error, if any, aborts the run with the call named |
| Systems.RunServerLifecycle | system/run.go:24-36 | the callback server is created exactly when it is needed, and stopped as the last call exactly when it was created and started |
| Systems.RunAbortsBeforeCases | system/run.go:24-60 | a run that fails on the server, the truncator, the truncation or the signature algorithm returns an error and calls no setup and no test case |
| Systems.RunReachesCases | system/run.go:24-113 | otherwise the run first starts the server (when needed), builds the truncator and truncates once, then makes a prefix of the expected calls, and finally stops the server; with no error it made every expected call and every setup name was known |
| Systems.RunSpecReaching | system/run.go:24-113 | a run that gets as far as its test cases is the test-case loop after the preparation calls, followed by the deferred stop |
| Systems.RunCasesPrefix | system/run.go:75-108 | each case's setups run in listed order before the case; the calls made are a prefix of the expected calls, and all of them when there is no error |
| Systems.RunCasesOutcomes | system/run.go:81-106 | every call the loop makes succeeds except a failing last one, whose error is the run's: the first failure returns at once |
| Systems.RunCasesUnknown | system/run.go:99-100 | an unknown setup name stops the run just before the call that would have run it, naming the setup and its test case |
| Systems.RunCasesSucceeds | system/run.go:75-108 | a loop that returns no error saw only known setup names |
| Systems.RunAfterServerAvoidsServer | system/run.go:38-108 | after the server is up, no call touches it until the deferred stop |
| Configs.IsValidTestType | config/config.go:73-84 | true exactly for ingest, fan_out, single, dynamic and pub_sub |
| Configs.Config.constructor | config/config.go:27-37 | a configuration holds the given fields |
| Configs.Config.Validate | config/config.go:107-118 | a zero event count becomes 5000 and any other is kept, before the log file is checked; the error is "empty log file" exactly when the log file is judged empty; nothing else changes |
| Configs.Override | config/config.go:120-148 | the old configuration becomes the field-by-field merge of the old and new ones; the new one is not changed |
| Configs.MergedFields | config/config.go:139-146 | each merged field is the new value when that is non-zero, and the old value otherwise; a non-nil authentication replaces the old one whole |
| Configs.MergedZero | config/config.go:139-146 | overriding with the zero configuration changes nothing |
| Configs.MergedIdempotent | config/config.go:120-148 | overriding twice with the same configuration is the same as overriding once |
| Configs.MergedOntoZero | config/config.go:120-148 | overriding the zero configuration gives the override |
| Auth.NewAuthenticator | auth/authenticator.go:13-27 | the api-key authenticator exactly for a non-nil authentication of type `api_key`, carrying the configured header name and value; no-op otherwise |
| Auth.Authenticate | auth/authenticator.go:34-43 | no-op accepts everything; api-key accepts exactly when the request's header value (`""` when absent) equals the configured value |
| Auth.AuthenticateRefuses | auth/authenticator.go:13-43 | a request is refused exactly when the configuration asks for an api key and the header does not carry the configured value |
| Auth.EmptyKeyAcceptsMissingHeader | auth/authenticator.go:34-37 | with an empty configured value, a request without the header is accepted |
| Http.HeaderGet | auth/authenticator.go:35 | `Header.Get` reads the value under the canonical form of the name, and "" when there is none |
| Http.HeaderGetCanonical | recv/log.go:61-62 | any spelling of a header name that canonicalises alike reads the same value |
| Http.Canonical | callback/signature_verifier.go:52 | canonicalising keeps the length of the name; `CanonicalIdempotent` shows that a canonical name stays as it is |
| Json.TypeName | variable_map.go:164 | the `%T` text names a map exactly for an object, a slice exactly for a list and `<nil>` exactly for null |
| RecvLog.Log.constructor | recv/log.go:29-39 | every counter is zero, both maps are empty and both rates are "" |
| RecvLog.Log.CaptureHeaders | recv/log.go:57-76 | the receipt count goes up by one (with `int` wrap-around); the event's receive time is set to the formatted time (key "" when the header is absent); the event's delivery counts are `Bumped`; nothing else changes |
| RecvLog.Bumped | recv/log.go:66-71 | the inner map of the event (created when missing) counts the delivery once more, and keeps every other delivery's count |
| RecvLog.BumpedCounts | recv/log.go:66-73 | below the top of the range, a receipt adds exactly one to its own count and changes no other event's or delivery's count |
| RecvLog.Log.AddAuthFailure | recv/log.go:78-80 | only the authentication-failure counter changes, by one |
| RecvLog.Log.AddSignatureFailure | recv/log.go:82-84 | only the signature-failure counter changes, by one |

## Left out

- In-place mutation and aliasing of Go maps: `InjectCallbackID`, `traverse` and the executor return the updated body as a value. The model therefore does not capture that the caller's `tc.RequestBody` is shared with anything else that holds it.
- Go map iteration order is unspecified. Maps are association lists, and their order is an input. The order-dependent early return of `traverse` and the order of `ProcessResponse` follow that list.
- JSON numbers: the tree has separate integer and non-integer number tags, and decoding is not modelled. A response body is given as the result of decoding it (`Response.decoded`), the decoded fields or the decoder's error message. How far `json.Decoder` reads ahead is not modelled, so the text left in the buffer after decoding is an input too (`Response.unread`). The buffer's address that `%+v` prints for the response is not modelled: the test step reports the status code only.
- Urls.Substitute: the cascade, where text put in by one name's replacement is seen by the next name's `ReplaceAll`, is computed by `Substitute` but not characterised: `SubstituteFills` and `ParseThenProcess` assume stored texts with no `{`.
- `sendRequest`, HTTP, `json.Marshal` and the HTTP client are an input: `Sender` maps the outgoing request to a response or an error.
- The callback server, channels and goroutines are an input: the ids of the callbacks that arrive, in order. `context.WithTimeout` is the number of loop iterations that start before the deadline. `uuid.New` is a parameter.
- Executors: `Times` is unbounded. The `uint` loop counter that would wrap (and loop forever) when `Times` is the largest `uint` is not modelled.
- Executors.Executor.constructor: the callback server, the HTTP client and the truncator are not fields. Each step receives what it needs from them as parameters.
- Crypto: HMAC and the hash functions are one parameter, `mac(algorithm, secret, message)`. Constant-time comparison is not modelled.
- Time: `time.Now` is given in seconds and nanoseconds, and the receive time is given already formatted as RFC 3339.
- `ioutil.ReadAll` of the callback body is an input: the body, or the error reading it.
- Systems.System.Run: every collaborator is one outcome function from the call's position and kind to its error. These collaborators are the callback server, the truncator, the four setup functions of `funcs` and `ExecuteTestCase`. A test case that hangs waiting for callbacks appears only as the outcome of its call.
- Systems.System.Clean: `url.Parse` of the base URL is a parameter returning its error, since `net/url` is not part of this model.
- Systems.System.constructor: the variable store, the database settings and the setup test cases of `System` are not fields, since only the collaborators read them.
- Configs.Config.Validate: `util.IsStringEmpty` is a parameter.
- Configs.Override: the loop over fields is written out field by field. `Config` has no struct-kind field, so the recursion of `overrideFields` never happens.
- `LoadConfig`, `NewSystem` and `processOverride` read files and the environment and are not modelled.
- Auth.NewAuthenticator: requires an api key when the type is `api_key`. The source dereferences nil (and panics) there.
- Urls.URL.ProcessWithVariableMap: requires a non-nil store when names are recorded. The source dereferences nil (and panics) there.
- Http.HeaderGet: `CanonicalMIMEHeaderKey` is modelled with the token-character rule: a name with any other character is left as it is. The header map is assumed to hold canonical keys, as the HTTP server stores them, with one value per name.
- `Log` locks a mutex and uses atomic adds. Concurrency is not modelled, so each method runs as one step.
- `CalculateStats` (floating-point percentages) and `WriteToFile` are not modelled.
