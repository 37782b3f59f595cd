# openid-client helpers in Dafny

This project models the parts of the `openid-client` relying-party library that
compute or check something without doing I/O:

- **the half-hash claims** (`at_hash`, `c_hash`, `s_hash`) of OpenID Connect
  Core 1.0, section 3.1.3.6, in both the Node build and the browser build.
  A JOSE `alg` (and the EdDSA curve `crv`) selects a digest. The digest of the
  token is cut to its left half and base64url-encoded. `validate` compares the
  result with a claim after a chain of guards.
- **the response classifier**. It turns an HTTP response into its parsed body
  or into the `OPError` it amounts to. The order of precedence is: status,
  then bearer challenge, then a standard error body, then a missing body.
- **the error records** `OPError` and `RPError`: the message rule and which
  fields are copied.
- **the base64url encoder**. It passes RFC 4648 section 4 base64 output
  through three rewrites and produces RFC 4648 section 5 output without
  padding. A decoder is included to prove that the encoder is injective.
- **the request helper**:
  - the mTLS, DPoP and scheme checks;
  - the merge of hook, call and default options;
  - the `searchParams` delete-then-set loop;
  - the loop that strips undefined headers;
  - the json/form body with `content-type` and `content-length`;
  - the DPoP nonce cache, written only for a `dpop-nonce` made of NQCHAR
    characters (RFC 6749, Appendix A).

  The helper is a class, `Request.HttpClient`, whose fields are the default
  options and the nonce cache.

Modules: `Js` (JavaScript values, truthiness, string conversion, responses),
`Errors`, `Base64Url`, `HalfHash` (the parts the two token-hash builds
share), `BrowserTokenHash`, `NodeTokenHash`, `ProcessResponse`, `Request`.

The digests, JSON, URL parsing, the WWW-Authenticate parser and the status-code
table are parameters. A `HalfHash.Hasher` is any function whose output has the
algorithm's fixed length. `ProcessResponse.Helpers` and `Request.Platform`
bundle the other collaborators. The Node capability check for shake256 is the
flag of `NodeTokenHash.Runtime`. The `typeof crypto` test that picks the branch
at load time is that datatype's other constructor.

The following code is not part of this model, and its behaviour is assumed as
described:

- `lib/helpers/base64url.js` (the Node build's encoder) is assumed to encode
  as the browser encoder does.
- `lib/helpers/pick.js` is assumed to keep the listed properties that are not
  `undefined`.
- `lib/helpers/defaults.js` is assumed to fill each property that the target
  lacks or holds as `undefined`, from the sources in order, and to merge
  nested plain objects. It is assumed to share a source's nested object
  with the target rather than copy it.

## Model

| member | source | states |
|---|---|---|
| `Errors.NewOPError` | lib/errors.js:1-24 | The message is `error`, or `error (error_description)` when the description is truthy. `error` is always carried. Each of the five other protocol fields is present exactly when truthy, and then holds the payload's value. The response is attached exactly when supplied. `name` is the class name. |
| `Errors.OPErrorIgnoresOtherKeys` | lib/errors.js:2 | Two payloads that agree on the six destructured keys give the same error. |
| `Errors.OPErrorStringMessage` | lib/errors.js:3-13 | For string fields the message is `error` or `error (description)`. An empty description is not carried. |
| `Errors.WhenTruthy` | lib/errors.js:7-12 | A field is kept exactly when its value is truthy, and then unchanged. |
| `Errors.NewRPError` | lib/errors.js:26-44 | A string argument is the message, with nothing copied. For an object: the message is its `message` (empty when absent), and every key except `message`, `response` and `name` is copied with its value. The response is attached as given. `name` is the class name. |
| `Js.ArgumentText` | lib/errors.js:31-32 | `new Error(message)` (and `TextEncoder.encode` at browser/helpers/oidc-token-hash.js:62) keeps a string argument as is. |
| `Base64Url.Base64` | browser/helpers/base64url.js:9 | `btoa`'s RFC 4648 section 4 output has 4·ceil(n/3) characters. |
| `Base64Url.Base64Alphabet` | browser/helpers/base64url.js:9 | Every character of that output is in the standard alphabet or is `=`, and there is no `=` when n is a multiple of 3. |
| `Base64Url.Base64UrlNoPadShape` | browser/helpers/base64url.js:9 | Unpadded output has ceil(4n/3) characters, all in the URL-safe alphabet. |
| `Base64Url.FromBase64` | browser/helpers/base64url.js:3 | `fromBase64` equals the one-pass rewrite. Its output has no `=`, `+` or `/`, and its length is the input's minus the number of `=`. |
| `Base64Url.FromBase64IsTranslate` | browser/helpers/base64url.js:3 | The three chained global replaces equal one character-wise pass that drops `=` and maps `+` to `-` and `/` to `_`, keeping every other character in order. |
| `Base64Url.TranslateShape` | browser/helpers/base64url.js:3 | The one-pass rewrite keeps the length minus the `=` count and leaves no `=`, `+` or `/`. |
| `Base64Url.FromBase64OfBase64` | browser/helpers/base64url.js:3-9 | Rewriting padded base64 of any bytes gives exactly their unpadded base64url. |
| `Base64Url.Btoa` | browser/helpers/base64url.js:9 | `btoa` succeeds exactly on binary strings (all codes below 256). Otherwise it throws an InvalidCharacterError. |
| `Base64Url.BinaryString` | browser/helpers/base64url.js:7 | `String.fromCharCode(...bytes)` has one character per byte, with that byte as its code. |
| `Base64Url.CharCodes` | browser/helpers/base64url.js:9 | The octets `btoa` reads from a binary string: turned back into characters they give that string. |
| `Base64Url.CharCodesOfBinaryString` | browser/helpers/base64url.js:7 | Converting bytes to a binary string and back is the identity. |
| `Base64Url.Encode` | browser/helpers/base64url.js:5-10 | A byte array always encodes to the unpadded base64url of its bytes. A string encodes exactly when it is a binary string, to the unpadded base64url of its codes. Every failure is an InvalidCharacterError. |
| `Base64Url.EncodeBytes` | browser/helpers/base64url.js:5-8 | Encoding a byte array equals encoding the binary string of the same bytes. |
| `Base64Url.EncodeRejectsWideCharacters` | browser/helpers/base64url.js:9 | A string with a character above U+00FF makes `encode` throw an InvalidCharacterError. |
| `Base64Url.DecodeEncode` | browser/helpers/base64url.js:5-10 | Decoding the unpadded base64url of any bytes gives those bytes back. |
| `Base64Url.Base64UrlNoPadInjective` | browser/helpers/base64url.js:5-10 | Different byte strings never encode alike. |
| `HalfHash.DigestLength` | lib/helpers/oidc-token-hash.js:83-108 | Every selectable digest has a positive, even length (32, 48, 64, 114 octets). |
| `HalfHash.LeftHalf` | lib/helpers/oidc-token-hash.js:125 | `slice(0, length / 2)` keeps a prefix. For an even length it is exactly half. |
| `HalfHash.ClaimValueLength` | lib/helpers/oidc-token-hash.js:123-126 | The half digest has 16, 24, 32 or 57 octets. The claim has ceil(4n/3) characters (22, 32, 43, 76), all URL-safe. |
| `HalfHash.ClaimValueDeterminesHalf` | lib/helpers/oidc-token-hash.js:123-126 | Two claim values are equal exactly when their half digests are equal. |
| `HalfHash.Guard` | lib/helpers/oidc-token-hash.js:129-140 | Passes exactly when both labels are non-empty strings and neither `actual` nor `source` is a truthy non-string. Falsy values pass. Each failure has the source's exception type and message, checked in the source's order. |
| `HalfHash.Conclude` | lib/helpers/oidc-token-hash.js:142-152 | Corrected comparison: succeeds exactly when a claim value was generated and `actual` is that string. A mismatch reports "<claim> mismatch, expected <e>, got: <actual>". A failed generation reports "<claim> could not be validated (<cause>)". |
| `HalfHash.ConcludeAsWritten` | lib/helpers/oidc-token-hash.js:142-152 | The comparison as written accepts a matching claim, and also an undefined claim whenever generation failed. On every other input it ends exactly as the corrected comparison does. |
| `BrowserTokenHash.GetHash` | browser/helpers/oidc-token-hash.js:25-59 | Succeeds exactly for the 14 listed algorithms, with EdDSA only on Ed25519. The digest size is the one the name announces (RS384 gives 384 bits), EdDSA gives SHA-512, and shake256 is never chosen. Unknown alg, Ed448 and unknown curve each fail with their own TypeError. |
| `BrowserTokenHash.GetHashValue` | browser/helpers/oidc-token-hash.js:61-64 | Fails as `getHash` fails. Otherwise returns a binary string as long as the digest, whose codes are the digest of the encoded token. |
| `BrowserTokenHash.Generate` | browser/helpers/oidc-token-hash.js:66-69 | `generate` fails exactly when `getHash` does, with its error. Otherwise it yields the OpenID Connect claim value of the token. |
| `BrowserTokenHash.GenerateLength` | browser/helpers/oidc-token-hash.js:66-69 | Browser claims have 22, 32 or 43 characters. |
| `BrowserTokenHash.Validate` | browser/helpers/oidc-token-hash.js:71-96 | Corrected `validate`. A guard failure is the result whatever the algorithm. Past the guards it succeeds exactly when `actual` is the claim value of `source`. An unsupported alg reports "<claim> could not be validated (<cause>)", a different claim "<claim> mismatch, expected <e>, got: <actual>". |
| `BrowserTokenHash.ValidateAsWritten` | browser/helpers/oidc-token-hash.js:71-96 | `validate` as written. A guard failure is the result. Past the guards, with an unsupported alg and an undefined `actual` it succeeds; on every other input it is the corrected `validate`. |
| `BrowserTokenHash.ValidateGenerated` | browser/helpers/oidc-token-hash.js:71-96 | A claim generated from a token validates against that token. |
| `BrowserTokenHash.AbsentClaimPassesAsWritten` | browser/helpers/oidc-token-hash.js:85-95 | As written, an undefined claim with an unsupported alg validates. Corrected, it fails with "at_hash could not be validated (...)". As written, with RS256 it fails. |
| `NodeTokenHash.GetHash` | lib/helpers/oidc-token-hash.js:76-116 | Succeeds exactly for the listed algorithms, with EdDSA on Ed25519, or on Ed448 when shake256 is available. Sizes follow the name. Ed25519 gives SHA-512 and Ed448 gives shake256. Unknown alg, Ed448 without shake256 and unknown curve each throw their TypeError. |
| `NodeTokenHash.GetHashValue` | lib/helpers/oidc-token-hash.js:118-120 | Fails with the branch's `getHash` error before the token is read; on the Node branch a non-string token then makes `update` throw its TypeError. Otherwise it is the digest of the token's text: a binary string on the WebCrypto branch (the browser code, lines 62-65), octets on the Node branch. |
| `NodeTokenHash.Generate` | lib/helpers/oidc-token-hash.js:123-126 | `generate` succeeds exactly when the branch supports the alg and, on the Node branch, the token is a string. Otherwise it fails with `getHashValue`'s error. On success it yields the claim value of the digested text. |
| `NodeTokenHash.GenerateLength` | lib/helpers/oidc-token-hash.js:123-126 | Claims have 22, 32, 43 or 76 characters. |
| `NodeTokenHash.WebCryptoBranchIsBrowser` | lib/helpers/oidc-token-hash.js:23-65 | The WebCrypto branch of the Node build computes exactly what the browser build does. This rests on the assumption about `lib/helpers/base64url.js` stated above. |
| `NodeTokenHash.BranchesAgree` | lib/helpers/oidc-token-hash.js:23-120 | For string tokens the two branches agree except on EdDSA with Ed448. This rests on the assumption about `lib/helpers/base64url.js` stated above, and on both branches digesting the same octets of the token. |
| `NodeTokenHash.Ed448Support` | lib/helpers/oidc-token-hash.js:101-108 | Ed448 is supported exactly on the Node branch with shake256. There it encodes the 57-octet half of a 114-octet shake256 digest. |
| `NodeTokenHash.Validate` | lib/helpers/oidc-token-hash.js:128-153 | Corrected `validate`. A guard failure is the result. Past the guards it succeeds exactly when generation succeeds and `actual` is the generated string. A failed generation reports "<claim> could not be validated (<cause>)", a different claim "<claim> mismatch, expected <e>, got: <actual>". |
| `NodeTokenHash.ValidateAsWritten` | lib/helpers/oidc-token-hash.js:128-153 | `validate` as written. A guard failure is the result. Past the guards, a failed generation with an undefined `actual` succeeds; on every other input it is the corrected `validate`. |
| `NodeTokenHash.ValidateGenerated` | lib/helpers/oidc-token-hash.js:128-153 | `validate(names, generate(t, alg, crv), t, alg, crv)` succeeds. |
| `NodeTokenHash.NullSourceCannotBeValidated` | lib/helpers/oidc-token-hash.js:137-152 | A `null` source passes the guards, but `update` rejects it, so the claim "could not be validated". |
| `ProcessResponse.ThrowAuthenticateErrors` | browser/helpers/process_response.js:5-11 | Throws exactly when the challenge parameters carry a truthy `error`. The OPError is built from those parameters and carries the response. |
| `ProcessResponse.IsStandardBodyError` | browser/helpers/process_response.js:13-28 | Never throws. True exactly when the (parsed) body has a non-empty string `error`, and then the response comes back with `parsedBody` replaced by the parsed object. Otherwise the response is unchanged. |
| `ProcessResponse.NotStandardBodyError` | browser/helpers/process_response.js:14-27 | An unparseable string body, a body that is not an object, or an object without a non-empty string `error`: false, response unchanged. |
| `ProcessResponse.IsStandardBodyErrorIdempotent` | browser/helpers/process_response.js:22-24 | Classifying the replaced response again finds the same error and changes nothing. |
| `ProcessResponse.Process` | browser/helpers/process_response.js:30-60 | Returns `parsedBody` unchanged exactly when the status matches and a body is present or not required. Every failure is an OPError with the response attached. On a status mismatch the order of precedence is: bearer challenge error, then standard body error (with the replaced response), then "expected <code> <reason>, got: <status> <reason>". A missing required body gives "... with body but no body was returned". |
| `ProcessResponse.GenericErrorMessages` | browser/helpers/process_response.js:40-57 | The generic errors carry their text as `error` and as message, without a description. |
| `ProcessResponse.BodyErrorFields` | browser/helpers/process_response.js:36-38 | A standard body error's OPError takes the body's `error` as its code and message. |
| `ProcessResponse.InvalidGrantExample` | browser/helpers/process_response.js:17-38 | A string `{"error":"invalid_grant"}` body on a 400 is reported as `invalid_grant`, with the parsed body attached. |
| `ProcessResponse.MismatchExample` | browser/helpers/process_response.js:40-47 | A 500 answer where 200 was expected reads "expected 200 OK, got: 500 Internal Server Error". |
| `ProcessResponse.NoContentExample` | browser/helpers/process_response.js:50-59 | With `body: false`, a matching status returns whatever body there is. |
| `Js.HeaderGet` | browser/helpers/process_response.js:6 | `headers.get` yields a value exactly when the header is present, and that value is the header's. |
| `Request.Preconditions` | lib/helpers/request.js:44-59 | mTLS, then DPoP, then URL parsing, then the scheme. Each fails with its own error, in that order. It passes exactly when none fails and the protocol is `http:` or `https:`. |
| `Request.MergeSearchParams` | lib/helpers/request.js:75-80 | After the loop the query is the old pairs of the other names, in order, followed by one pair per entry, in the entries' order, with the value as a string. |
| `Request.Entries` | lib/helpers/request.js:76 | `Object.entries` lists every property once with its value. |
| `Request.MergedQueryOccurrences` | lib/helpers/request.js:75-80 | After the merge each supplied name has exactly one pair, with the supplied value as a string. Every other name keeps its pairs. |
| `Request.MergedQueryKeepsOthers` | lib/helpers/request.js:75-80 | Setting the supplied names aside, the merged query is the old query. |
| `Request.SetParamAbsent` | lib/helpers/request.js:78 | `set` of a name that is not present appends the pair at the end. |
| `Request.SetParamEffect` | lib/helpers/request.js:78 | `set` leaves exactly one pair for the name and leaves the pairs of other names unchanged. |
| `Request.Pick` | lib/helpers/request.js:68-71 | Keeps exactly the listed defined properties, with their values. |
| `Request.MergedOptions` | lib/helpers/request.js:61-73 | An option outside `allowed` is the call's merged over the defaults, whatever the hook returns. Without a hook every option is. |
| `Request.MergedPrecedence` | lib/helpers/request.js:73 | For a non-object option, a defined hook value wins over the call's, and the call's over the default. |
| `Request.DefaultsAllPrecedence` | lib/helpers/request.js:73 | Merging from several sources gives the first defined value of a non-object property. |
| `Request.DefaultsDeepSkip` | lib/helpers/request.js:73 | A source without a property leaves that property of the merge unchanged. |
| `Request.StripUndefined` | lib/helpers/request.js:91-95 | After the loop exactly the headers with a defined value remain, unchanged. |
| `Request.DefinedHeaders` | lib/helpers/request.js:91-95 | Specifies the stripped headers: a key is kept exactly when its value is defined, with that value. |
| `Request.ApplyBody` | lib/helpers/request.js:97-108 | The body is the serialized `json`, else the encoded `form`, else `body`. `content-type` is set to the matching type. `content-length` is `body.length` exactly when the body is truthy. No other header changes. |
| `Request.SelectedBody` | lib/helpers/request.js:97-103 | The body sent is the serialization the content type announces: `JSON.stringify(json)` with `application/json`, the encoded form with `application/x-www-form-urlencoded`, and the `body` option when no type is set. |
| `Request.JsonOverForm` | lib/helpers/request.js:97-103 | A truthy `json` decides body and content type whatever `form` holds. |
| `Request.BodyLength` | lib/helpers/request.js:106 | A string body's length is its character count. |
| `Request.AssemblePrepared` | lib/helpers/request.js:87-108 | The fetch options are the merged options minus `form`, `responseType`, `json`, `body` and `timeout`, plus the cleaned headers and a truthy body. |
| `Request.PreparedHeadersDefined` | lib/helpers/request.js:89-106 | No prepared header but `content-length` holds `undefined`. |
| `Request.UndefinedHeaderRefilled` | lib/helpers/request.js:73-95 | A call header given as `undefined` does not unset a default header: the merge fills it back in from the defaults, so the request sends the default's value. |
| `Request.NqcharTest` | lib/helpers/request.js:13 | NQCHAR matches exactly the non-empty strings of %x21, %x23-5B and %x5D-7E characters. |
| `Request.NqcharRejects` | lib/helpers/request.js:13 | A space, `"`, `\`, a newline or a non-ASCII character makes the nonce unacceptable. |
| `Request.NonceOf` | lib/helpers/request.js:136-137 | A nonce is taken exactly when there was a response whose `dpop-nonce` header is present and NQCHAR. |
| `Request.InitialDefaults` | lib/helpers/request.js:36-39 | At load the defaults hold the `name/version (homepage)` user agent and a 3500 ms timeout. |
| `Request.HttpClient.constructor` | lib/helpers/request.js:36-41 | The defaults are those of `setDefaults([], …)` at load, and the nonce cache is empty. |
| `Request.HttpClient.SetDefaults` | lib/helpers/request.js:28-34 | The new defaults are the allowed options merged over the old defaults. |
| `Request.HttpClient.Prepare` | lib/helpers/request.js:43-108 | A failed check throws its error. Otherwise everything of a prepared request holds: merged query, cache key origin + path, timeout and responseType taken from the merged options, fetch options and headers as above. |
| `Request.HttpClient.RecordNonce` | lib/helpers/request.js:135-139 | The cache gains the nonce under the key when `NonceOf` yields one. Otherwise the cache is unchanged. |
| `Request.HttpClient.Request` | lib/helpers/request.js:43-139 | A failed check throws before the `try`, so the cache is unchanged. Otherwise the request is prepared and the nonce, if any, is recorded under origin + path. |

## Left out

- The digests themselves (SHA-2, shake256) are left out as cryptography. `Hasher` only fixes their output lengths.
- Runtime detection (`typeof crypto`, the Node version and `getHashes()` test at lib/helpers/oidc-token-hash.js:69-74) is left out as platform probing. It appears as the `Runtime` parameter.
- `generate` being deterministic needs no lemma: it is a function.
- `NodeTokenHash.GetHashValue`: non-string tokens on the Node branch all raise one TypeError message. Node's real text also names the received value. Buffers are not modelled as tokens.
- `Base64Url.Btoa`: the InvalidCharacterError's message text is the platform's. The model fixes one text.
- JavaScript numbers are integers here, so NaN, fractions and `-0` are left out. No modelled value needs them.
- String lengths count Unicode scalar values, not UTF-16 code units. So `Request.BodyLength` differs from `body.length` for characters outside the Basic Multilingual Plane. The code sets `content-length` to `body.length`, which for non-ASCII bodies is not the byte count; the model follows the code.
- Only `undefined` headers are stripped, as the code does. Empty or `null` values are kept.
- `Request.HeadersOf` / `Request.SearchParamsOf`: a truthy `headers` or `searchParams` that is not a plain object (for example a string, whose `Object.entries` lists its characters) is treated as empty.
- The hook's result is taken to be a plain object. A hook returning `undefined` would make `pick` throw; that case is left out.
- `Request.HttpClient.Request`: the model states that a request never changes `defaults`, and every request works on copies. Under the assumed behaviour of `lib/helpers/defaults.js`, the code shares nested objects: a property the target lacks is set to the source's object itself, and later sources are then merged into that same object. So when neither the hook nor the call gives `headers`, `opts.headers` at lines 89-106 is the defaults' own `headers` object. The header loop deletes from it, and lines 98, 101 and 106 write `content-type` and `content-length` into it. Every later request without its own headers then sends those values. When the call does give `headers`, the merge writes the default headers into the caller's object. This aliasing across requests and callers is not modelled, and `Request.Fill` copies by value.
- `Request.HttpClient.Request`: the preparation and the `finally` nonce write are modelled as one step with nothing in between. In the code, the call waits at `await fetchRequest` and at the body reads (lib/helpers/request.js:116-122). While it waits, other requests can write the module-wide nonce cache (lines 41 and 138), and `setDefaults` can run. So the frame `nonces == old(nonces)[key := …]` holds only when no other call runs at the same time. `Request.HttpClient.RecordNonce` on its own still models the single write at line 138, which is atomic.
- `Base64Url.Encode`: the `typeof input === 'object'` branch of browser/helpers/base64url.js:6-7 also accepts `null` and arrays with entries above 255. With `null`, `String.fromCharCode(...null)` throws a TypeError. With a wide entry, `btoa` throws. `ByteArray` holds octets only, so it can express neither case. No caller in this model passes such a value.
- `Request.MergeSearchParams`: the entries are walked in the order `Object.entries` gives, which is the object's property order. Objects are maps here and do not record that order, so `Request.Entries`, and with it `Request.HttpClient.Prepare`, fix only that each property comes once. The position of the supplied pairs, after all other pairs, is fixed.
- Arrays are not modelled as values. `String([1, 2])` is `"1,2"` and `defaultsDeep` does not merge arrays, whereas `Obj` prints as `[object Object]` and is merged.
- `Errors.NewRPError`: the object form's `response` is a separate field of `Errors.RPErrorInit`, so it need not be the object's own `response` property. Responses are not `Js.JsValue` values. `new RPError(undefined)` throws a TypeError while destructuring; the argument type cannot express that case.
- The nonce cache is a plain map. The LRU bound of 100 entries (lib/helpers/request.js:41) and its eviction are left out.
- `fetch`, the abort timer, `responseType` handling and reading the body (lib/helpers/request.js:110-134) are I/O and timers and are left out. That includes the timeout `RPError`, whose message reads `opts.timeout` after `timeout` was taken out of `opts`. The exchange's response is a parameter of the nonce write.
- The `accessToken` option of `request` is read nowhere in the code, so it has no counterpart.
- The WWW-Authenticate parser, `JSON.parse`, `STATUS_CODES`, URL parsing, `JSON.stringify` and form encoding are parameters. Their code is not part of this model.
- `decodeJSON`, the generators, the hash wrappers and the other thin platform helpers are left out: JSON parsing, randomness, and no logic of their own.
- Stack traces and property enumerability of the errors are left out.
- `ProcessResponse.Process`: `body` and `bearer` are booleans, standing for their truthiness. `statusCode` is an integer.

## Findings

| source | as written | input that shows it | evidently intended | confidence | as-written member | corrected member |
|---|---|---|---|---|---|---|
| lib/helpers/oidc-token-hash.js:142-152 (same in browser/helpers/oidc-token-hash.js:85-95) | When `generate` throws, `expected` stays `undefined`. `expected !== actual` is then false for an undefined `actual`, so `validate` returns without error. | `validate({claim: 'at_hash', source: 'access_token'}, undefined, 'token', 'none')` | A failed generation always ends in "<claim> could not be validated (<cause>)". | medium, not executed | `BrowserTokenHash.AbsentClaimPassesAsWritten` (on `BrowserTokenHash.ValidateAsWritten` / `HalfHash.ConcludeAsWritten`) | `HalfHash.Conclude`, used by `BrowserTokenHash.Validate` and `NodeTokenHash.Validate` |
