# Palm-reading service with WeChat Pay: a Dafny model

This project models the decision logic and string handling of the
palm-reading web service *kanshouxiang*:

- the WeChat Pay v3 wire helpers: the configuration gate, the canonical
  signing message and `Authorization` header, the notification verification
  message, the split of the encrypted notification resource, and the two
  gateway calls;
- the four payment routes: native order creation, the notification webhook,
  order status, and the development-only mock success;
- the analysis and palm-validation routes: the credit gate, the data-URI
  prefix, the fail-open verdict, and the first `{…}` snippet;
- the report parser of the home page: `<tag>…</tag>` extraction, sections,
  the `<mount>` scan, the `**bold**` splitter and the loading-progress
  recurrence;
- object storage (`tos.ts` and the presigned-upload route): endpoint host,
  gate, media type, extension, object key and public URL;
- the WeChat login callback: synthetic e-mail, derived password, and the
  guard/redirect sequence.

Network calls, crypto primitives (RSA-SHA256, AES-256-GCM, HMAC-SHA256),
`JSON.parse`/`JSON.stringify`, the store and the clock are parameters of the
model: a handler is a pure function of its request, its environment and its
collaborators' answers. It returns its response together with the trace of
collaborator calls it made, so "X happens before Y" and "a rejected request
never reaches Z" are statements about that trace. An answer of `None` or
`…Threw` from a collaborator stands for an exception.

One module per source file, plus shared modules:

- `Common`: `Option`, JavaScript truthiness, `||`.
- `Text`: substring search with optional ASCII case folding, `trim`, decimal
  numerals, `padStart`, lowercase hex.
- `Base64`: the base64 alphabet and padding of section 4 of RFC 4648.
- `DataUri`: the `^data:(image\/[a-zA-Z0-9.+-]+);base64,` prefix shared by the
  analysis route and the storage upload.

Some behaviour of the code is easy to misread; the model keeps it as written:

- `verifyWebhookSignature` always accepts (`WechatPay.VerifyWebhookSignature`).
- `queryOrder` returns the parsed reply body whatever the HTTP status. It
  does not classify the trade state.
- The store operations are the ones the code calls: `check_purchase_limit`,
  the `packages`/`orders` tables and `handle_payment_success`.
- The webhook uses the gateway client's `decipher_gcm`, not the module's own
  `decryptResource`.
- The payment routes import a default `wxPay` client from `wechat-pay.ts`,
  which has no default export, so as the repository stands that client is
  `undefined`: the webhook always answers FAIL/500 `Config missing` and the
  native route always takes its no-client branch. The model keeps the
  client's presence as a parameter (`clientPresent`) so that both branches of
  each route are stated; the `false` case is the one the code reaches today.

## Model

| member | source | states |
|---|---|---|
| WechatPay.UnescapeNewlines | src/lib/wechat-pay.ts:8 | after `replace(/\\n/g, '\n')` no backslash-n escape is left, the key never grows, and only the escapes change: writing each newline back as `\n` (`WechatPay.Escape`) gives the input again whenever it held no newline of its own |
| WechatPay.SigningMessageFields | src/lib/wechat-pay.ts:19-25 | the signed message splits back at newlines into exactly method, URL, timestamp, nonce and body, in that order, so each field is followed by exactly one newline |
| WechatPay.LinesJoinLines | src/lib/wechat-pay.ts:21 | newline-terminated joining of newline-free fields is undone by splitting at newlines |
| WechatPay.JoinLinesAppend | src/lib/wechat-pay.ts:21 | joining concatenated field lists is concatenating the joined texts |
| WechatPay.SigningMessageExtendsVerification | src/lib/wechat-pay.ts:46 | the webhook message (timestamp, nonce, body) is the tail of the request-signing message after method and URL |
| WechatPay.ParseRenderAuth | src/lib/wechat-pay.ts:33 | the header layout is unambiguous: quote-free fields are read back exactly from the rendered header |
| WechatPay.AuthFieldsFor | src/lib/wechat-pay.ts:28-33 | the header carries the configured merchant id and serial; the signature is over the same timestamp and nonce that are placed in the header; the nonce is 32 lowercase hex characters from 16 random bytes; the timestamp is the decimal numeral of the current time in whole seconds |
| WechatPay.AuthHeader | src/lib/wechat-pay.ts:28-33 | the header string parses back to exactly the signed fields, provided the ids and the signature contain no double quote |
| WechatPay.VerifyWebhookSignature | src/lib/wechat-pay.ts:37-50 | every notification is accepted, whatever its signature |
| WechatPay.SliceCiphertext | src/lib/wechat-pay.ts:56-57 | the body and tag slices concatenate to the ciphertext; the tag slice is the last 24 characters, or everything when shorter |
| WechatPay.SliceCiphertextAligned | src/lib/wechat-pay.ts:56-57 | when the encrypted body's length is a multiple of 3, the two slices decode to exactly the body and the 16-byte tag |
| WechatPay.SliceCiphertextMisaligned | src/lib/wechat-pay.ts:56-57 | for every body whose length is not a multiple of 3, with a 16-byte tag, the tag slice decodes to the last one or two body bytes followed by the tag (17 or 18 bytes) and the body slice to the body without them |
| WechatPay.SplitAuthTag | src/lib/wechat-pay.ts:53-57 | the intended split yields a 16-byte tag, and body plus tag is the decoded ciphertext |
| WechatPay.SplitAuthTagRecovers | src/lib/wechat-pay.ts:53-57 | the intended split recovers body and tag for every body length |
| WechatPay.DecryptResource | src/lib/wechat-pay.ts:53-65 | as written: a slice that is not base64 gives no plaintext; otherwise the decipher gets whatever the two slices decode to (`WechatPay.DecryptSlices`) |
| WechatPay.DecryptSlices | src/lib/wechat-pay.ts:54-63 | the decipher receives the API v3 key, the nonce and the associated data unchanged, the tag slice's bytes as tag and the body slice's bytes as data |
| WechatPay.DecryptResourceAligned | src/lib/wechat-pay.ts:53-65 | for a body whose length is a multiple of 3 the decipher gets exactly the body and the 16-byte tag |
| WechatPay.DecryptResourceMisaligned | src/lib/wechat-pay.ts:53-65 | for every other body the decipher gets a 17- or 18-byte tag made of the body's last bytes and the real tag, and a body shorter than the real one |
| WechatPay.DecodeSlices | src/lib/wechat-pay.ts:56-57 | whole 3-byte groups followed by a 17- or 18-byte tail: the slices decode to exactly the groups and the tail |
| WechatPay.SliceAtGroup | src/lib/wechat-pay.ts:56-57 | when the tail encodes to 24 characters, slicing off 24 characters cuts at the group boundary between head and tail |
| WechatPay.GroupTail | src/lib/wechat-pay.ts:56 | 17 or 18 bytes encode to 24 characters, as many as a 16-byte tag |
| WechatPay.DecryptResourceIntended | src/lib/wechat-pay.ts:53-65 | with the split the comment on line 56 intends, an undecodable or too short ciphertext gives no plaintext |
| WechatPay.DecryptIntendedRecovers | src/lib/wechat-pay.ts:53-65 | with the intended split the decipher gets exactly the body and the tag, for every body length |
| WechatPay.CreateNativeOrder | src/lib/wechat-pay.ts:68-116 | unconfigured: `WeChat Pay not configured` and no request; a signer that throws while the header is built: no request and its message as the error; otherwise one signed POST to the native path whose body keeps the trade number and total with currency CNY; `code_url` is returned iff the reply is ok and carries a truthy `code_url`; otherwise the reply's message or `Payment failed`; a thrown error gives its message |
| WechatPay.SentOrderSigned | src/lib/wechat-pay.ts:20-33 | a sent order request's header carries exactly the signature the signer produced for that request's body, when the ids and the signature hold no double quote |
| WechatPay.QueryOrder | src/lib/wechat-pay.ts:118-141 | unconfigured: `WeChat Pay not configured` and no request; a signer that throws: no request and its message as the error; otherwise a signed GET with empty body to the out-trade-no path with the merchant id, returning the reply body as is, or the thrown message |
| Base64.DecodeEncode | src/lib/wechat-pay.ts:56-57 | base64 decoding undoes encoding, for every byte string |
| Base64.DecodeQuad | src/lib/wechat-pay.ts:56-57 | four characters of a complete group decode to its three octets in front of whatever the rest decodes to, and decoding fails exactly when the rest fails |
| Base64.EncodeAppend | src/lib/wechat-pay.ts:56-57 | the encoding of a whole number of 3-byte groups followed by more bytes is the concatenation of the two encodings |
| Base64.TagLength | src/lib/wechat-pay.ts:56 | a 16-byte tag encodes to 24 characters |
| Text.HexRoundTrip | src/lib/wechat-pay.ts:30 | the nonce's hex text reads back to the random bytes |
| Text.DecimalRoundTrip | src/lib/wechat-pay.ts:29 | the decimal numeral of a number is all digits and reads back to the number |
| Text.DecimalInjective | src/app/api/payment/native/route.ts:46 | distinct numbers have distinct numerals |
| WebhookRoute.AfterParse | src/app/api/payment/webhook/route.ts:34-57 | no resource: SUCCESS with no call; otherwise decryption first, with the resource's ciphertext, associated data and nonce and the API v3 key; a throwing decryption or result parse: FAIL/500 with nothing after it; a result whose state is not SUCCESS is acknowledged after the parse; a SUCCESS state calls the store third, with the result's trade number |
| WebhookRoute.Handle | src/app/api/payment/webhook/route.ts:5-62 | the answer code is SUCCESS or FAIL, and the status is 200 exactly for SUCCESS; no client: FAIL/500 with no call at all; the verifier is called first, with the raw body text and the four headers; a rejected signature: FAIL/401 and nothing else is called; a throwing verifier or body parse: FAIL/500; decryption only after acceptance; the store is called exactly when the decrypted state is `SUCCESS`, with that result's trade number; a throwing store call or one that reports an error gives FAIL/500, one that reports none SUCCESS; after the parse the trace is the verification, the parse and then `WebhookRoute.AfterParse` |
| WebhookRoute.NonSuccessIsAcknowledged | src/app/api/payment/webhook/route.ts:35-57 | a notification without a resource, or whose decrypted state is not SUCCESS, is answered SUCCESS/OK without any store call |
| NativeRoute.RandomSuffix | src/app/api/payment/native/route.ts:46 | `Math.floor(Math.random() * 1000)` is at most 999 |
| NativeRoute.TradeRefInjective | src/app/api/payment/native/route.ts:46 | a trade reference `ORDER_<ms>_<r>` determines both its millisecond timestamp and its suffix |
| NativeRoute.CreateOrder | src/app/api/payment/native/route.ts:45-97 | the pending order is inserted first, priced as the package, with the given reference; a failed insert gives 500 with no gateway call; without a client, development answers the mock code with the inserted id and production 503; with a client the gateway is asked once for this reference, price and CNY; a thrown gateway error gives 500 with its message, a truthy `code_url` gives the payment code for this reference, otherwise 500 |
| NativeRoute.Handle | src/app/api/payment/native/route.ts:5-103 | no user: 401 with no store call; an unreadable body: 500 with its message; missing package id: 400 with no store call; the limit check is first; a limit error gives 500 and a refusal 403, both before any lookup or insert; an unknown package gives 404 with no insert; a found package goes on to `NativeRoute.CreateOrder` after the check and the lookup |
| NativeRoute.OrderBeforeGateway | src/app/api/payment/native/route.ts:45-97 | every inserted order follows all guards and is pending, priced as the package, for this user and package, with reference `ORDER_<ms>_<r>`; a payment code implies the order was inserted before the gateway was asked for the same reference and amount in CNY; the gateway is never called before the insert |
| NativeRoute.PaymentCodeExactly | src/app/api/payment/native/route.ts:5-97 | a payment code is answered exactly when all guards passed, the order was inserted, a client exists and the gateway returned a truthy `code_url` |
| NativeRoute.NoClientFallback | src/app/api/payment/native/route.ts:64-74 | without a gateway client the order is still inserted; development answers the mock code with the inserted order's id, production 503 |
| StatusRoute.KeyFor | src/app/api/payment/status/route.ts:9-17 | no key exactly when neither identifier is truthy; a truthy `order_id` is used, else `out_trade_no` |
| StatusRoute.Handle | src/app/api/payment/status/route.ts:4-26 | neither identifier: 400 with no lookup; a lookup happens exactly on the key `StatusRoute.KeyFor` selects; a lookup error: 404 `Order not found`; otherwise 200 with the stored status unchanged |
| StatusRoute.OrderIdPrecedence | src/app/api/payment/status/route.ts:16-17 | once `order_id` is given, `out_trade_no` has no influence on the answer |
| MockSuccessRoute.Handle | src/app/api/payment/mock-success/route.ts:4-28 | outside development: 403 with no store call; an unreadable body: the framework's 500; missing `out_trade_no`: 400; a `createAdminClient` throw: the framework's 500 with no store call; the store is called exactly for a truthy trade number in development once a client exists, with that number; a throwing store call gives the framework's 500, a reported error 500 with its message, otherwise success |
| MockSuccessRoute.ProcessedExactly | src/app/api/payment/mock-success/route.ts:4-28 | 200 exactly when in development, with a truthy trade number, a client, and a store call that reports no error |
| AnalyzeRoute.ApiKey | src/app/api/analyze/route.ts:131 | a key exists iff one of the three variables is truthy, and the Gemini key wins |
| AnalyzeRoute.ErrorResponse | src/app/api/analyze/route.ts:243-252 | 499 exactly for `ECONNRESET` or `aborted`, otherwise 500 |
| AnalyzeRoute.JoinTextsAppend | src/app/api/analyze/route.ts:223-224 | the joined output of consecutive parts is the concatenation of their texts, in order |
| AnalyzeRoute.JoinTextsSkipsMissing | src/app/api/analyze/route.ts:224 | a part without text contributes nothing |
| AnalyzeRoute.SettleImageUrl | src/app/api/analyze/route.ts:172-182 | a truthy client URL wins with no upload; otherwise a server upload is tried only when storage is enabled, and its failure leaves no URL without aborting |
| AnalyzeRoute.Answer | src/app/api/analyze/route.ts:217-224 | a good reply gives 200 and the concatenated part texts; a failed reply keeps its status and its text, or `Upstream error` when that is empty; a thrown error or bad JSON maps through the 499/500 rule |
| AnalyzeRoute.Generation | src/app/api/analyze/route.ts:172-215 | the image URL is settled first and the model is then called once, last, with the given inline image; the response is the model's answer |
| AnalyzeRoute.AfterDeduction | src/app/api/analyze/route.ts:164-215 | a body that is not JSON fails through the 499/500 rule; a missing image gives 400 with no further call; a call is made exactly when there is an image, and then the model is called last with the data URI's media type and stripped payload, after the URL is settled |
| AnalyzeRoute.Charged | src/app/api/analyze/route.ts:151-168 | the deduction is the first call; a throwing deduction fails through the 499/500 rule, an RPC error gives 500 and a refused deduction 402, each with no further call; anything after it happens only after a successful deduction |
| AnalyzeRoute.Handle | src/app/api/analyze/route.ts:136-253 | no key: 401 before the user lookup; a throwing lookup fails through the 499/500 rule; no user: 401 before any credit call; a signed-in user's credit is deducted right after the lookup, and what follows is `AnalyzeRoute.Charged` |
| AnalyzeRoute.DeductionOutcomes | src/app/api/analyze/route.ts:150-168 | for a signed-in user: a throwing deduction, an RPC error (500) and a refusal (402) each end after the deduction; the credit is spent before the body is read, so a missing image (400) or a body that is not JSON also ends after the deduction |
| AnalyzeRoute.ModelCall | src/app/api/analyze/route.ts:164-215 | a charged request with an image always reaches the model; a request that reaches it has a key, a user, a successful deduction and an image, calls it last with the data URI's media type and stripped payload, and answers with its reply |
| AnalyzeRoute.ModelCallSettled | src/app/api/analyze/route.ts:172-191 | a request that reaches the model carries the image URL, and made the upload, that `AnalyzeRoute.SettleImageUrl` decides |
| AnalyzeRoute.ModelCalledExactly | src/app/api/analyze/route.ts:136-215 | the model is called exactly when there is a key, a user, a successful deduction and an image in a JSON body |
| DataUri.Match | src/app/api/analyze/route.ts:189 | a match yields an `image/<sub>` media type, and the input is exactly prefix plus payload |
| DataUri.MatchComplete | src/app/api/analyze/route.ts:189 | every input of the form `data:image/<sub>;base64,<rest>` is matched, with that subtype and payload |
| DataUri.MediaType | src/app/api/analyze/route.ts:189-190 | the media type is `image/<sub>` of the prefix, or `image/jpeg` when there is none |
| DataUri.StripPrefix | src/app/api/analyze/route.ts:191 | the payload after the prefix, or the input unchanged when there is no prefix |
| DataUri.Unique | src/app/api/analyze/route.ts:189-191 | the prefix is parsed unambiguously: subtype and payload are determined by the text |
| DataUri.StripRoundTrip | src/app/api/analyze/route.ts:189-191 | prefix and stripped payload put back together give the input |
| ValidatePalmRoute.IndexOf | src/app/api/validate-palm/route.ts:73 | the first occurrence of a character at or after a position, or none |
| ValidatePalmRoute.SnippetBounds | src/app/api/validate-palm/route.ts:73 | the first `{` and the first `}` after it; none exactly when no `{` is followed by a `}` |
| ValidatePalmRoute.JsonSnippet | src/app/api/validate-palm/route.ts:73 | the snippet starts with `{`, ends with its first following `}`, and exists exactly when some `{` is followed by a `}` |
| ValidatePalmRoute.SnippetIsLeftmostMatch | src/app/api/validate-palm/route.ts:73 | every lazy match of `\{[\s\S]*?\}` starts no earlier than the snippet, and one from the same `{` is the snippet |
| ValidatePalmRoute.VerdictOf | src/app/api/validate-palm/route.ts:77-80 | `valid` is the truthiness of the parsed `valid`; a missing or empty reason falls back to 验证通过 or 请上传手掌照片 by validity |
| ValidatePalmRoute.Handle | src/app/api/validate-palm/route.ts:26-91 | no API key: pass regardless of the request; missing image: 400 `缺少图片`; a non-OK or throwing upstream, no snippet, a parse failure or a malformed body: pass; otherwise the parsed verdict |
| ValidatePalmRoute.FailsOpen | src/app/api/validate-palm/route.ts:62-89 | a photo is rejected only for a missing image or an explicit falsy `valid` from the model |
| Text.Trim | src/app/page.tsx:17 | the result is the text between the leading and the trailing whitespace; it is empty exactly for all-whitespace input |
| Text.TrimUnique | src/app/page.tsx:17 | a slice with whitespace around it and non-whitespace ends is the trimmed text |
| ReportParser.TagBounds | src/app/page.tsx:14-16 | an opener and the first case-insensitive closer after it, the opener being the first in the text that has a closer after it; none exactly when no opener has a closer after it |
| ReportParser.TagBoundsLeftmost | src/app/page.tsx:15-16 | every lazy match of `<tag>([\s\S]*?)</tag>` starts no earlier than the one found, and one from the same opener ends at the same closer |
| ReportParser.Group | src/app/page.tsx:15-17 | the captured group is the text between the found opener and closer |
| ReportParser.ExtractTagContent | src/app/page.tsx:14-18 | null exactly when the regular expression has no match, otherwise the trimmed group |
| ReportParser.ExtractLacksCloser | src/app/page.tsx:15-17 | the extracted text never contains the closing tag, in any letter case |
| ReportParser.ExtractStep | src/app/page.tsx:20-28 | null exactly for an absent or blank section; otherwise the section's content with the title and English title extracted from it |
| ReportParser.ContentOffset | src/app/page.tsx:14-18 | the extracted text is a slice of its input, at a returned offset |
| ReportParser.TrimmedSliceOffset | src/app/page.tsx:17 | trimming a slice of a text leaves a slice of that text |
| ReportParser.BoundsMatch | src/app/page.tsx:15-16 | a successful extraction has a case-insensitive opener and, after it, a closer in its input |
| ReportParser.NestedTag | src/app/page.tsx:20-28 | a tag found inside an extracted section has its opener and, after it, its closer in the original text |
| ReportParser.FinishedHasAdvice | src/app/page.tsx:555-557 | a finished report holds a `<step5>` section and an `<advice>` opener followed by its closer |
| ReportParser.Mounts | src/app/page.tsx:161-171 | the text is exactly gaps and `<mount>…</mount>` contents woven together; no gap before a mount holds an opener, no content holds a closer, the last gap holds no complete mount, and there is one card per content, built from it |
| ReportParser.Step4Mounts | src/app/page.tsx:157-171 | no cards unless the `<mounts>` section is present and non-blank; otherwise the section is exactly gaps and mount contents woven together, with one card per content |
| ReportParser.MountFields | src/app/page.tsx:166-170 | a card's name, status or description is missing exactly when that tag has no match in the mount's content; a present name never contains its closing tag |
| ReportParser.BoldEnd | src/app/page.tsx:37 | the lazy `.*?\*\*` ends just past the first `**`, with no line terminator and no earlier `**` before it; none when every later `**` lies past a line terminator |
| ReportParser.SplitFrom | src/app/page.tsx:37 | the split parts alternate text and captured bold runs, odd in number, and concatenate back to the input |
| ReportParser.SplitBold | src/app/page.tsx:37 | `line.split(/(\*\*.*?\*\*)/)` loses nothing: the parts concatenate to the line, and every odd part is a captured `**…**` run |
| ReportParser.Render | src/app/page.tsx:40-45 | a part is bold exactly when it starts and ends with `**`; then stars plus the shown text plus stars give the part back (for parts of length 4 or more) |
| ReportParser.CapturedRendersBold | src/app/page.tsx:37-45 | every captured run is shown bold, as exactly the text between its stars |
| ReportParser.StarsOnlyVanish | src/app/page.tsx:37-45 | a lone `***` is not split, yet it is shown as an empty bold run |
| ReportParser.SplitLines | src/app/page.tsx:35 | `split('\n')` gives newline-free lines that join back to the text |
| ReportParser.FormattedText | src/app/page.tsx:31-51 | nothing for the empty text; otherwise one paragraph per line, each the rendering of that line's bold split |
| ReportParser.Tick | src/app/page.tsx:246-249 | below 50% a tick adds 2%, from 50% to below 90% it adds 0.5%, and at 90% it stops |
| ReportParser.ProgressClosedForm | src/app/page.tsx:245-250 | after n ticks the progress is 2n% up to 50%, then 0.5% per tick, capped at 90% |
| ReportParser.ProgressBounded | src/app/page.tsx:245-250 | the progress never decreases, never passes 90%, and is at 90% from tick 105 on |
| ReportParser.Message | src/app/page.tsx:256-261 | the message for each band above 20, 40, 60 and 80 per cent; at exactly those values it stays as it was |
| Storage.EndpointHost | src/lib/tos.ts:11-12 | a leading `https://` or `http://` is removed; any other text is left as is |
| Storage.EndpointHostStripsScheme | src/lib/tos.ts:12 | the host is recovered from either scheme |
| Storage.ConfigOf | src/lib/tos.ts:4-12 | a truthy region is kept, otherwise `cn-beijing`; missing keys and bucket become empty; a set endpoint has its scheme stripped, an unset one defaults to `tos-<region>.volces.com` |
| Storage.GetClient | src/lib/tos.ts:18-31 | no client exactly when access key, secret key or bucket is missing; otherwise one built from the keys, the endpoint host and the region |
| Storage.MimeType | src/lib/tos.ts:44-45 | the media type of the data-URI prefix, or `image/jpeg` |
| Storage.SecondSegment | src/lib/tos.ts:48 | `split('/')[1]`: none exactly when there is no slash, and never containing a slash |
| Storage.SecondSegmentOf | src/lib/tos.ts:48 | the second segment of `a/b…` is `b` |
| Storage.Extension | src/lib/tos.ts:48-49 | the extension is never empty and never `jpeg` |
| Storage.ExtensionOfDataUri | src/lib/tos.ts:44-49 | the extension is the data URI's subtype, with `jpeg` written `jpg` |
| Storage.ExtensionDefault | src/lib/tos.ts:44-49 | without a data-URI prefix the extension is `jpg` |
| Text.Pad2Value | src/lib/tos.ts:58 | `String(n).padStart(2, '0')` keeps the value and has exactly two digits below 100 |
| Storage.DatePathFields | src/lib/tos.ts:58 | month and day of a valid date are written as two digits that read back to the one-based month and the day |
| Storage.DatePathInjective | src/lib/tos.ts:58 | a date path followed by a slash determines the date and what follows |
| Storage.DatePathFieldsSplit | src/lib/tos.ts:58 | a date path followed by a slash gives back its year numeral, its two padded fields and what follows |
| Storage.FileNameInjective | src/lib/tos.ts:61 | `<timestamp>-<random>.<ext>` determines all three when the random part has no dot |
| Storage.ObjectKeyInjective | src/lib/tos.ts:56-61 | two uploads get the same object key only with the same date, timestamp, random part and extension |
| Storage.PublicUrlKey | src/lib/tos.ts:78 | the public URL is `https://<bucket>.<host>/` followed by the object key, so the key is recoverable from it |
| Storage.UploadImage | src/lib/tos.ts:40-81 | unconfigured: nothing is sent and no URL is returned; otherwise one upload to the bucket under the dated key with the parsed media type and payload; a URL is returned exactly when the upload succeeds, and it is the public URL of that key |
| UploadRoute.Extension | src/app/api/upload/route.ts:34-37 | `png` iff the content type contains `png`, else `webp`, else `gif`, else `jpg`, each as an if-and-only-if |
| UploadRoute.Handle | src/app/api/upload/route.ts:18-69 | unconfigured: 500 `TOS not configured` with nothing presigned; a presign is requested exactly when configured and the body is JSON with a string content type; 200 exactly when it succeeds; otherwise 500 `Failed to generate upload URL`; the presign is a PUT for 600 seconds on the dated key; the response carries the signed URL, the public URL and the key |
| UploadRoute.ExtensionsAgree | src/app/api/upload/route.ts:34-37 | for png, webp, gif and jpeg the presign route and the server upload choose the same extension (`png`, `webp`, `gif`, `jpg`) |
| UploadRoute.ServerExtension | src/lib/tos.ts:48-49 | for `image/<sub>` the server upload's extension is the subtype, with `jpeg` written `jpg` |
| UploadRoute.ExtensionsDiffer | src/app/api/upload/route.ts:34-37 | any other data-URI subtype that names none of png, webp and gif keeps its own extension on the server but becomes `jpg` in the presign route |
| UploadRoute.SvgDiffers | src/app/api/upload/route.ts:34-37 | `image/svg+xml` is `svg+xml` on the server and `jpg` in the presign route |
| WechatCallback.Password | src/app/api/auth/wechat/callback/route.ts:11-14 | the HMAC of the openid under the service-role key, or under `fallback-secret` when that is unset |
| WechatCallback.Email | src/app/api/auth/wechat/callback/route.ts:51 | the address is the openid followed by `@wechat.kanshouxiang.com` |
| WechatCallback.EmailInjective | src/app/api/auth/wechat/callback/route.ts:51 | distinct openids get distinct addresses |
| WechatCallback.Account | src/app/api/auth/wechat/callback/route.ts:48-94 | the account is created with the openid's address, derived password, confirmed e-mail and openid metadata; a throwing creation gives `internal_error` and an error other than `already been registered` gives `create_user_failed`, both without sign-in; otherwise sign-in follows with the same address and password; a throwing sign-in gives `internal_error`, one reporting an error `signin_failed`, and login succeeds exactly when it reports none |
| WechatCallback.Exchanged | src/app/api/auth/wechat/callback/route.ts:32-98 | after the token request: an `errcode` redirects `wechat_token_error`; a throwing request or a reply without an openid gives `internal_error`; an openid leads to `WechatCallback.Account` |
| WechatCallback.Handle | src/app/api/auth/wechat/callback/route.ts:16-100 | no code: redirect `error=no_code` with no call; missing app id or secret: 500 JSON with no call; otherwise the token request comes first, for the configured app and the code; an `errcode` redirects `wechat_token_error`; a throwing exchange or a missing openid gives `internal_error`; an openid leads to `WechatCallback.Account`; `login_success=true` exactly when sign-in reports no error; at most three calls |
| WechatCallback.LoginSucceedsExactly | src/app/api/auth/wechat/callback/route.ts:16-100 | login succeeds exactly when there is a code and a configuration, the token reply has an openid and no `errcode`, the account was created or already registered, and sign-in reports no error |

## Left out

- I/O, the React rendering, `console` logging, the PDF export and the login page are outside the model. The login-start route is not part of this model.
- RSA-SHA256 signing, AES-256-GCM, HMAC-SHA256, `fetch`, `JSON.parse`, `JSON.stringify` and the store are parameters. Their answers are inputs, so no property depends on what they compute. The signer may throw (`WechatPay.SignThrew`, a key that is not valid PEM); `JSON.stringify` of the order body is taken not to throw.
- The prompt texts of the analysis and validation routes, the model names, base URLs and request payloads other than the image are left out. They carry no decision.
- Dates and clocks (`new Date()`, `Date.now()`) are inputs. The calendar date is taken as given: year, zero-based month and day.
- `Math.random().toString(36).substring(2, 8)` is modelled as a given random text. Its base-36 rendering is floating-point formatting; the object-key lemmas only need it to have no dot.
- `NativeRoute.RandomSuffix`: `Math.random()` is the exact fraction `num / den` in [0, 1). Floating-point rounding of `Math.random() * 1000` is not modelled.
- `NativeRoute.Handle`: the `orders.amount` column receives the yuan price `pkg.price`, while the gateway receives `Math.round(pkg.price * 100)` fen. The model holds prices in whole fen (`NativeRoute.Package.priceFen`) and records the inserted row's amount as 100 times the column's yuan value (`OrderRow.amountFen`), so the row and the gateway total agree in that unit only. `Math.round` is taken to be exact; a price whose float product rounds differently is not modelled.
- `ReportParser.Tick`: progress is held in half-percent units. This is exact because every value the recurrence reaches is a multiple of 0.5 below 91.
- `ReportParser.ExtractTagContent`: case-insensitive matching folds ASCII letters only. This is exact for the tag names the page uses. Non-ASCII case folding of other tags is not modelled. Tag names are taken literally, not as regular-expression source; every tag the page passes is a plain word.
- Node's `Buffer.from(…, 'base64')` is lenient about invalid characters and missing padding. The model decodes strictly per RFC 4648 section 4, so the findings are stated on well-formed input. The image payload of an upload is kept as its base64 text.
- `Storage.GetClient`: the cached client is not modelled. Building a fresh one from the same configuration gives the same client. A throw from the storage SDK constructor is not modelled either.
- `UploadRoute.Handle`: an array-valued `contentType`, which `includes` accepts with element semantics, is treated like any other non-string value (500).
- `WechatCallback.Account`: `createError.message` is assumed present. An error without a message would throw inside the handler and give `error=internal_error`. A non-string `openid` is also not modelled.
- `WechatPay.VerifyWebhookSignature` verifies nothing, exactly as the source does. Real certificate verification would be a parameter, like the other crypto.
- The status colouring of mount cards (`includes('饱满')`) is presentation only.
- `NativeRoute.Handle`: the store calls (limit check, package lookup, insert) are modelled by their answers, which report failure in `error` rather than by throwing; a throw from the store client itself is not modelled.
- `AnalyzeRoute.Handle`: a truthy `image` that is not a string throws at `image.match` after the credit is spent; the model takes `image` to be a string.
- `WechatCallback.Handle`: a throw from `createAdminClient` happens before `createUser` is called, but is folded into a throwing creation, so the trace shows a creation call that did not happen.
- `WechatPay.DecryptResource`: the base64 decoding is strict, and Node's refusal of a tag whose length is not a GCM tag length is left to the decipher parameter. `JSON.parse` of the plaintext is not modelled; the result is the plaintext.
- `WebhookRoute.Handle`: a body whose `JSON.parse` yields a value that is neither an object nor `null` is modelled as an envelope without a resource.

## Findings

| source | as written | input that shows it | evidently intended | confidence | as-written member | corrected member |
|---|---|---|---|---|---|---|
| src/lib/wechat-pay.ts:56-57 | the last 24 base64 characters are decoded as the 16-byte GCM tag and the rest as the encrypted body | any encrypted body whose length is not a multiple of 3, e.g. a 1-byte body with a 16-byte tag: its 17 bytes encode to exactly 24 characters, so the tag slice decodes to 17 bytes and the body slice is empty | decode the whole ciphertext and take its last 16 bytes as the tag, which works for every body length | not executed | WechatPay.DecryptResourceMisaligned | WechatPay.DecryptIntendedRecovers |
