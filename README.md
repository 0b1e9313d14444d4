# Billplz payment-gateway core, modelled in Dafny

This project models the payment-gateway module `server/billplz.ts` of an
AECOIN storefront (virtual currency for a role-play game server). It covers
three parts of that module:

- **X-Signature canonicalisation and verification.** The source string drops
  the `x_signature` field and turns every other field into `key ++ value`,
  with a missing value read as `""`. It sorts those pieces ascending, ignoring
  case, and joins them with `|`. The callback verifier checks an HMAC of that
  string against the received signature. The redirect verifier does the same
  after putting `billplz` in front of every key.
- **The settlement check.** `verifyBillPayment` accepts a fetched bill only
  when `paid === true` and `state === 'paid'`, and reads every failure as
  unpaid.
- **The client state and request construction.** The id of the Billplz
  collection is memoised. The bill-creation body includes its optional fields
  only under their conditions. Responses are validated before use.

Files (one module each):

- `wrappers.dfy`: `Option`, `Result`, and JavaScript truthiness of an optional string.
- `text.dfy`: lower-casing, the case-insensitive comparator as a total order, and `join`.
- `sorting.dfy`: the stable sort the source delegates to `Array.prototype.sort`, and its correctness.
- `signature.dfy`: the source string and the two verifiers.
- `gateway.dfy`: errors, HTTP outcomes, the bill request, and the `BillplzClient` class.

How the environment is modelled:

- **The signing key and the secret key** (`BILLPLZ_SIGNATURE_KEY`,
  `BILLPLZ_SECRET_KEY`) are `Option<string>` parameters. "Configured" means
  set and non-empty, the JavaScript truthiness the source tests.
- **HMAC-SHA256** is a function parameter `hmac: (string, string) -> string`
  (key, message). Nothing is assumed about it.
- **Records** (`Record<string, string>`) are sequences of `Entry(key, value)`
  in insertion order. A value of `None` stands for `undefined`. The redirect
  verifier requires distinct keys, which every JavaScript object has.
- **HTTP.** Each client method receives the response the gateway gives to the
  request it would send (`HttpResponse`: no answer, or a status with text and
  parsed JSON). It appends the request it sends to the ghost field `sent`, a log that exists only for the contracts. That log makes "no request is issued" a statement about state; the only real mutable state is `collectionId`.
- **The module-level `collectionId`** is the field `BillplzClient.collectionId`.

## Model

| member | source | states |
|---|---|---|
| `Text.LexLeReflexive` | server/billplz.ts:221 | the comparator used for sorting relates every string to itself |
| `Text.LexLeTotal` | server/billplz.ts:221 | any two strings are comparable: the comparator is total |
| `Text.LexLeAntisymmetric` | server/billplz.ts:221 | strings that compare as equal in both directions are identical |
| `Text.LexLeTransitive` | server/billplz.ts:221 | the comparator is transitive, so it is a total order |
| `Sorting.SortPiecesCorrect` | server/billplz.ts:221 | the sort returns its input's pieces in ascending case-insensitive order, as a permutation (same multiset) |
| `Sorting.SortedUnique` | server/billplz.ts:221 | two ascending permutations of the same pieces are equal when no two distinct pieces agree ignoring case |
| `Signature.PiecesOfEntries` | server/billplz.ts:215-218 | every non-`x_signature` entry contributes its `key ++ (value or "")` piece; every piece comes from a non-`x_signature` entry; the piece count is the entry count minus the `x_signature` entries |
| `Signature.PiecesOfRecord` | server/billplz.ts:215-218 | with distinct keys, there is exactly one piece per entry, minus one when `x_signature` is present |
| `Signature.PiecesPermutation` | server/billplz.ts:215-218 | reordering the entries only reorders the pieces (same multiset) |
| `Signature.SourceStringSorted` | server/billplz.ts:220-223 | the source string is the `\|`-join of an ascending case-insensitive permutation of the pieces |
| `Signature.SourceStringOrderIndependent` | server/billplz.ts:212-224 | when no two pieces are equal ignoring case, entries supplied in any order give the same source string |
| `Signature.SourceStringAmbiguous` | server/billplz.ts:217-223 | values are not escaped: `{a: "b\|c"}` and `{a: "b", c: undefined}` give the same source string, so one signature covers both |
| `Signature.ConstructSourceString` | server/billplz.ts:212-224 | the loop that collects pieces, then the sort and the join, yield exactly `SourceString(params)` |
| `Signature.VerifyCallbackSignature` | server/billplz.ts:232-264 | no signing key returns true; with a key, a missing or empty `x_signature` returns false; otherwise true exactly when `hmac(key, SourceString(params))` equals the received signature |
| `Signature.PrefixedShape` | server/billplz.ts:287-291 | every key of the redirect's intermediate record differs from `x_signature`, and every value is present |
| `Signature.AssignFresh` | server/billplz.ts:290 | assigning a key not yet in a record appends it last |
| `Signature.RedirectPiecesArePrefixed` | server/billplz.ts:286-298 | the redirect's pieces are the callback pieces of the same query, one for one, each prefixed with `billplz` |
| `Signature.VerifyRedirectSignature` | server/billplz.ts:273-317 | no signing key returns true; a missing or empty `x_signature` returns false; otherwise true exactly when `hmac(key, SourceString(Prefixed(query)))` equals it, where `Prefixed` keys every non-signature field as `billplz ++ k` |
| `Gateway.AmountInSen` | server/billplz.ts:116 | the amount in sen is the integer nearest to `amount * 100`, with halves rounded up |
| `Gateway.BillRequestFor` | server/billplz.ts:118-135 | the required fields are copied; `mobile` is present exactly when given non-empty; `reference_1_label` and `reference_1` are present together, exactly when both are given non-empty |
| `Gateway.BuildBillRequest` | server/billplz.ts:118-135 | the step-by-step construction of the body yields `BillRequestFor(collId, p)` |
| `Gateway.CollectionOutcome` | server/billplz.ts:74-87 | an id results exactly from a success status with a non-empty id; a failed status yields the upstream text in the error; an id-less body yields "No ID returned" |
| `Gateway.CreatedBillOutcome` | server/billplz.ts:146-157 | a bill results exactly from a success status whose body has non-empty `id` and `url`; otherwise the corresponding error |
| `Gateway.FetchedBillOutcome` | server/billplz.ts:180-187 | any successful, parsable response is returned unchecked; a failed status carries the upstream text |
| `Gateway.BillplzClient.constructor` | server/billplz.ts:49 | the client starts with no collection id and no requests sent |
| `Gateway.BillplzClient.EnsureCollectionExists` | server/billplz.ts:51-95 | a stored id is returned with no request sent; a missing secret key fails with nothing sent; otherwise one creation request is sent and the id is stored only when the response carries a non-empty one; only non-empty ids are ever stored |
| `Gateway.BillplzClient.CreateBill` | server/billplz.ts:97-165 | a missing secret key fails with nothing sent; a collection failure is propagated after the creation request; otherwise the bill request `BillRequestFor(id, p)` is sent and its response validated |
| `Gateway.BillplzClient.GetBill` | server/billplz.ts:167-192 | a missing secret key fails with nothing sent; otherwise one retrieval request is sent and its response returned; the collection id is untouched |
| `Gateway.BillplzClient.VerifyBillPayment` | server/billplz.ts:194-202 | true exactly when the bill was fetched (key set, success status, parsable body) and it has `paid == true` and `state == "paid"`; every failure gives false |
| `Gateway.CreateTwoBills` | server/billplz.ts:49-54 | two bills created in a row: once the first succeeds, at most one collection-creation request is sent in all; none when the id was already stored; both bill requests name the same collection |

## Left out

- HTTP itself (`fetch`), the Basic-auth header encoding, JSON parsing and `console` logging are I/O. Responses are parameters, and a body that does not parse is `json == None`.
- The HMAC-SHA256 computation is a foreign crypto call. It is the parameter `hmac`, about which nothing is assumed.
- The fixed reference signature for a sample field set cannot be stated, because HMAC is not computed.
- Tamper resistance cannot be stated either: it rests on HMAC collision resistance. `Signature.SourceStringAmbiguous` shows that the source string alone does not pin down the fields.
- `toLowerCase` is modelled on ASCII letters only. Unicode case mapping is not modelled.
- `localeCompare` is modelled as lexicographic order on character codes. Locale collation (for example its treatment of `_` and digits) can order some keys differently.
- The order `Object.entries` gives (integer-like keys first) is modelled as plain insertion order. It matters only for pieces that tie ignoring case.
- `Array.prototype.sort` is a library routine that sorts in place. It is modelled on values, as a stable insertion sort assigned back to the local `pairs`. Its stability is built into the model, but no lemma states it.
- `Gateway.AmountInSen`: `Math.round(amount * 100)` is computed on exact reals, not on IEEE doubles. Inputs whose product is inexact in floating point (such as 1.005) can round differently in the source.
- The `try`/`catch` blocks around the verifiers catch nothing that can be raised in the model, since `hmac` is total.
- With `BILLPLZ_SIGNATURE_KEY` unset, both verifiers return plain `true` in every environment; only a console warning marks it, and the model returns `true`.
- The race on first initialisation of `collectionId` under concurrent requests is concurrency. The model is sequential.
- The fields of the bill responses that the code never reads (amounts, dates, email and others) are not modelled.
- `server/discord-webhook.ts` (a fire-and-forget notification), the React pages and the sample-ranking seeding script are not part of this model.
