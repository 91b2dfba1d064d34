# Independent Reserve API client — request preparation and response classification

This project models the core of the `independentreserve` JavaScript client
(`index.js`) with its HTTP transport taken away:

- the client's configuration: key, secret, and a server URL that defaults to
  `https://api.independentreserve.com`;
- the nonce counter. Each client owns one, and it is seeded at construction.
  Every private request that gets prepared advances it by exactly one;
- private request preparation (`postReq`). It fails on missing credentials
  before any nonce is taken. Otherwise it signs `nonce + key` with HMAC-SHA256,
  upper-cases the hex digest, and merges `{apiKey, signature, nonce}` with the
  caller's parameters. The caller's parameters win on a clash. The URL is
  `base + "/Private/" + action`;
- stripping of one leading byte-order mark (U+FEFF) from a response body;
- classification of a public (`getReq`) response, where the first match wins:
  transport error, then a body that does not parse, then a truthy `Message`
  field, otherwise the decoded data;
- the pagination guard of `getOpenOrders`, `getClosedOrders` and
  `getTransactions`. It requires `pageIndex >= 1` and `1 <= pageSize <= 50`, and
  a call that fails it is rejected before `postReq` runs.

Three pieces are external, so they enter as parameters:

- HMAC-SHA256 with hex encoding is `hmacHex: (secret, message) -> hex`.
- `JSON.parse` is `parse: string -> Option<Value>`, where `None` stands for the
  exception it throws.
- The wall-clock nonce seed is a constructor argument.

The pure functions in `Requests` take the counter value and return the counter
value after the call. The class `Client.IndependentReserve` holds the counter
as a mutable field and delegates to those functions.

Modules:

- `Wrappers`: `Option` and `Result`.
- `Json`: decoded values, JavaScript truthiness, and property access.
- `Text`: decimal rendering of numbers, digit parsing, and ASCII upper-casing.
- `Signer`: the signing message and the signature.
- `Errors`: the error kinds.
- `Response`: BOM stripping and the public classifier.
- `Requests`: configuration, URLs, `postReq`, the pagination guard, the paged
  calls, and call sequences.
- `Client`: the stateful client.
- `Format`: the count of `%s` conversions that decides whether building a
  `VError` throws.

Facts about `index.js` that the model follows:

- The signing message is the nonce's decimal text followed directly by the key
  (index.js:30). No URL, separator or request parameter enters it.
- An empty body has no error of its own. It goes to `JSON.parse`, which throws
  on it at index.js:131, so it is reported like any other unparseable body.
- A body that does not parse is reported with the BOM-stripped body as it is
  (index.js:135-137). No text is extracted from it.
- A `Message` field is an error only when it is truthy (index.js:140). An empty
  `Message` string lets the data through as success.
- The counter is a plain `this.nonce++` (index.js:29), with no overflow check.
- The pagination errors are built from formats with two `%s` and one argument
  (index.js:241, 246, 264, 269, 293, 298). See "## Findings".

## Model

| member | source | states |
|---|---|---|
| Requests.NewConfig | index.js:6-11 | The key and secret are kept as given. An absent or empty server selects `https://api.independentreserve.com`, and any other server is used as the base URL. |
| Requests.BaseUrlNeverEmpty | index.js:11 | Whatever the constructor is given, the base URL is never empty. |
| Client.IndependentReserve.constructor | index.js:6-15 | The client keeps the key and secret as given and applies the default server. Its counter starts at the seed, which is the wall-clock time in the source. |
| Requests.PrivateUrl | index.js:24 | A private URL starts with the base URL, continues with `/Private/`, and ends with exactly the action. |
| Requests.PublicUrl | index.js:100-103 | A public URL starts with the base URL, continues with `/Public/`, and ends with exactly the action. |
| Requests.PrivateNeverPublic | index.js:100 | On one server, no private URL ever equals a public URL, whatever the two actions are. |
| Requests.SignedBody | index.js:34-38 | The body's keys are the caller's keys plus `apiKey`, `signature` and `nonce`. Every caller value is kept unchanged. An auth field keeps its signing value only when the caller did not supply that key. |
| Requests.PostReq | index.js:17-45 | Missing key or secret gives the credentials error and leaves the counter unchanged. With both present, the request succeeds and carries the current counter as its nonce. The counter ends exactly one higher. The URL is the private URL of the action, and the signature is the upper-cased HMAC of `nonce + key`. The body carries every caller parameter, and the auth fields hold the signing values unless the caller overrode them. |
| Requests.CheckPaging | index.js:239-248 | The guard accepts exactly when `pageIndex >= 1` and `1 <= pageSize <= 50`, so both bounds are inclusive. A bad `pageIndex` is reported before a bad `pageSize`. |
| Requests.GuardFormatsNeedTwoArguments | index.js:241-246 | Both guard error formats hold exactly two `%s` conversions. |
| Requests.CheckPagingAsWritten | index.js:239-248 | As written, the guard passes exactly when `pageIndex >= 1` and `1 <= pageSize <= 50`. |
| Requests.RejectedPageThrows | index.js:239-248 | As written, the guard throws exactly when the corrected guard reports an error, because one argument cannot fill two `%s`. With a second argument, neither format throws. |
| Requests.PagedPostReq | index.js:239-255 | With the corrected guard, a call the guard rejects returns the guard's error with the counter unchanged. A call the guard accepts behaves exactly like `postReq`. |
| Requests.GetOpenOrders | index.js:235-256 | The call succeeds exactly when the credentials are present and the page is valid. A failure never advances the counter, and a success advances it by one. A success targets `/Private/GetOpenOrders`, and its body carries the currency pair, `pageIndex` and `pageSize`. |
| Requests.GetClosedOrders | index.js:258-279 | The same as `getOpenOrders`, for the `GetClosedOrders` action. |
| Requests.GetTransactions | index.js:287-309 | The same guard and counter behaviour as `getOpenOrders`. A success targets `/Private/GetTransactions`, and its body carries the account, both timestamps and the page. |
| Requests.PagingCheckedBeforeCredentials | index.js:239-250 | With the corrected guard and without credentials, a paged call reports the pagination error whenever the page is invalid. It reports the credentials error only when the page is valid. |
| Requests.Step | index.js:29 | A successful call uses the current counter as its nonce and advances the counter by one. A failed call leaves the counter unchanged. |
| Requests.Run | index.js:29 | Running a sequence of calls gives one outcome per call, and the counter never decreases. |
| Requests.NoncesConsecutive | index.js:29 | Over any sequence of calls, the nonces used are the start value, start+1, start+2, and so on with no gap. The counter ends at the start value plus the number of nonces used. |
| Requests.NoncesStrictlyIncreasing | index.js:29 | The nonces used over any sequence of calls are strictly increasing, so no nonce is ever reused. |
| Requests.NoCredentialsNoNonce | index.js:26-27 | On a client without credentials, every private call fails, no nonce is used, and the counter never moves. |
| Client.IndependentReserve.PostReq | index.js:17-45 | The stateful `postReq` advances the counter field by exactly one on success and leaves it unchanged on failure. The successful request's nonce is the old counter value. |
| Client.IndependentReserve.GetOpenOrders | index.js:235-256 | The stateful `getOpenOrders` behaves as `Requests.GetOpenOrders` on the counter field. |
| Client.IndependentReserve.GetClosedOrders | index.js:258-279 | The stateful `getClosedOrders` behaves as `Requests.GetClosedOrders` on the counter field. |
| Client.IndependentReserve.GetTransactions | index.js:287-309 | The stateful `getTransactions` behaves as `Requests.GetTransactions` on the counter field. |
| Text.Decimal | index.js:30 | The decimal text of the nonce is non-empty and all digits, with no leading zero. |
| Text.DecimalRoundTrip | index.js:30 | Reading the decimal text of `n` back as digits gives `n`. |
| Text.DecimalInjective | index.js:29-30 | Two numbers have the same decimal text exactly when they are equal. |
| Text.Upper | index.js:32 | Upper-casing keeps the length and leaves no lower-case ASCII letter. Every non-letter is unchanged, and each lower-case letter becomes its upper-case form. |
| Text.LowerUndoesUpper | index.js:32 | On text without upper-case letters, lower-casing the upper-cased text gives the original back. |
| Text.UpperOfLowerHex | index.js:32 | A lower-case hex digest becomes upper-case hex. |
| Signer.SigningMessage | index.js:30 | The message is exactly the nonce's decimal text, with no leading zero, followed by the key with no separator. The digits before the key read back as the nonce. |
| Signer.SigningMessageRoundTrip | index.js:30 | If the key does not start with a digit, the signing message determines the nonce and the key: splitting it after its leading digits gives back exactly both. |
| Signer.DistinctNoncesDistinctMessages | index.js:29-30 | For a fixed key, two signing messages are equal exactly when their nonces are equal. |
| Signer.MessageHasNoSeparator | index.js:30 | Nonce 12 with key "3k" signs the same text as nonce 123 with key "k". |
| Signer.Signature | index.js:31-32 | Each character of the signature is the upper-case form of the same character of the HMAC hex digest of `nonce + key`. So it is as long as the digest, has no lower-case letter, and is upper-case hex whenever the digest is lower-case hex. |
| Signer.SignatureRecoversDigest | index.js:31-32 | Lower-casing the signature gives back the lower-case hex digest, so upper-casing loses nothing. |
| Response.StripBom | index.js:125-129 | A body that starts with U+FEFF loses exactly that one character. Any other body is returned unchanged. |
| Response.StripBomUndoesPrefix | index.js:126-129 | Stripping undoes prepending one mark to any body, so a body that starts with two marks keeps its second one. |
| Response.StripBomIdempotentIff | index.js:126-129 | Stripping twice equals stripping once exactly when the body does not start with two marks. |
| Response.ExchangeMessage | index.js:140 | An exchange message exists exactly when the decoded value is an object with a truthy `Message` field, and the message is that field's value. |
| Response.ClassifyPublicAsWritten | index.js:116-149 | As written, the callback is never called exactly when there is no transport error and the stripped body decodes to `null`. |
| Response.ClassifyPublic | index.js:116-149 | First match wins. A transport error always wins. Otherwise a stripped body that does not parse gives a parse error carrying that body. Otherwise a truthy `Message` gives an exchange error carrying it. Otherwise the result is success, and success carries exactly the decoded value. |
| Response.AsWrittenAgreesOffNull | index.js:140-149 | The as-written classifier and the corrected one agree on every response except one whose body decodes to `null`. |
| Response.NullBodyEscapesCallback | index.js:131-140 | The valid JSON body `null` makes the as-written classifier throw without calling back. The corrected classifier delivers `null` as data. |
| Response.BomIsTransparent | index.js:123-131 | Prepending one byte-order mark to a body that does not already start with one never changes the classification. |
| Response.BomPrefixedObject | index.js:126-131 | The body U+FEFF followed by `{"A":1}` classifies as success with the object `{A: 1}`. |
| Response.PrivateResponseHead | index.js:51-64 | In the private callback, a transport error wins over everything. Otherwise a truthy `body.Message` is an exchange error carrying it, checked before any parsing. Otherwise the callback goes on to parse the body. |
| Response.MessageIsExchangeError | index.js:140-146 | The body `{"Message":"Invalid nonce"}` classifies as an exchange error with the message "Invalid nonce", not as success. |

## Left out

- HTTP transport: the `request` library, the User-Agent header, the 15000 ms timeout, the `typeof callback === 'function'` check and the asynchronous callback plumbing. These are I/O over a library that is not part of this model.
- HMAC-SHA256 and its hex encoding. They are the parameter `hmacHex`, and only the upper-casing applied to its output is modelled.
- `JSON.parse`. It is the parameter `parse`, a partial function where `None` stands for the exception.
- The private-response callback (index.js:47-87). Its behaviour depends on how the `request` library types a `json:` body. It reads `body.Message` before parsing and calls `body.charAt` on what may be an object. Only its first two checks, transport error and then `body.Message` (index.js:51-64), are modelled, by `Response.PrivateResponseHead`. The BOM strip and parse that follow are not.
- Nonce seeding from `new Date().getTime()`. This is wall-clock input, so the seed is a constructor argument.
- `VError` message formatting and the `error.name` assignment. Errors are a kind plus their payload: the exchange message, the stripped body, or the transport cause. Of the formatting, only the rule that each `%s` needs one argument and a missing argument throws is modelled, in `Format.Conversions`. The `VError` and `extsprintf` libraries are not part of this model.
- The one-line endpoint wrappers (index.js:160-233, 281-284, 311-314). They pass arguments straight to `getReq`/`postReq`. `getRecentTrades` refers to an undefined variable at index.js:201.
- The order of keys in the JSON body. The body is a map, and JavaScript's insertion order is not modelled.
- JavaScript number semantics. Numbers are unbounded reals and nonces are naturals, so precision loss past 2^53, NaN and non-number page arguments are not modelled.
- Requests.PagedPostReq: the paged calls, both the `Requests` functions and the `Client` methods, use the corrected guard `Requests.CheckPaging` from "## Findings". A rejected page therefore comes back as `Failure(...)`, where the code as written throws before any callback (`Requests.CheckPagingAsWritten`). Either way `postReq` is not reached and no nonce is used.
- Text.Upper: upper-cases ASCII letters only, because the hex digest it is applied to never holds other letters. JavaScript's `toUpperCase` maps all of Unicode.
- Requests.NewConfig: the key, secret and server are strings or absent. A truthy non-string key, such as a number, would turn `nonce + key` into numeric addition, and that is not modelled.

## Findings

| source | as written | input that shows it | evidently intended | confidence | as-written member | corrected member |
|---|---|---|---|---|---|---|
| index.js:140 | `data.Message` is read outside the `try`. A body that decodes to `null` throws a TypeError, and the callback is never called. | a successful GET whose body is `null` | the callback is always called once, here with `null` as data | medium (not executed) | Response.ClassifyPublicAsWritten | Response.ClassifyPublic |
| index.js:241 | Each pagination rejection calls `new VError('%s pageIndex %s is not >= 1', functionName)`, with two `%s` and one argument. The same happens at 246, 264, 269, 293 and 298. Formatting runs out of arguments and throws, so the callback never receives the page error. `postReq` is still not reached. | `getOpenOrders('Xbt', 'Aud', 0, 10, cb)` | the callback receives the page error, with the offending value as the second argument | medium (not executed; depends on `VError` throwing on too few arguments, and that library is not part of this model) | Requests.CheckPagingAsWritten | Requests.CheckPaging |
