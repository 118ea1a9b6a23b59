# paymentnepal PHP client — request signing and callback handling, in Dafny

This project models the core of the Paymentnepal PHP client (`alba.php`).
It covers how `PaymentnepalService` builds the field arrays it sends to the
gateway and how `sign` computes their `check` signature. It also covers how
callback notifications are checked (`checkCallbackSign`) and dispatched by
`PaymentnepalCallback`.

Modules, one concern each:

- `PhpStrings` and `PhpArray`: the PHP values the client works on.
  - A PHP string is a sequence of bytes, carried as `char`s no larger than 255 where that bound matters (`IsByteString`).
  - A PHP array with string keys is a sequence of `key => value` pairs in insertion order.
  - `$a[k] = v` is `Put`, `array_merge` is `Merge`, and `isset($a[k])`/`$a[k]` is `Get`.
  - `False` defaults are `None` of an `Option`.
- `Rfc3986`: `rawurlencode` as section 2.1 of RFC 3986 describes percent-encoding, with a decoder that it round-trips against.
- `Query`: `_http_build_query_rfc_3986`. It has a loop method, the function that specifies it, and a reader that parses the query back.
- `KeySort`: `ksort`. The specification is insertion by key, and a method runs it on the by-value copy the PHP function receives.
- `Url`: the part of `parse_url` the signer reads.
- `Signer`: `sign`, the four-line signing string `METHOD\nHOST\nPATH\nQUERY` and its HMAC.
- `Crypto`: MD5, HMAC-SHA256 and base64 as parameters (`Primitives`). They are not modelled.
- `RequestFields` and `Requests`: the field arrays of `initPayment`, `transactionDetails`, `refund`, `gateDetails` and `createCardToken`, and the request each call hands to `_curl`. `RecurrentParams::first_pay`/`next_pay` are also here.
- `Callback`: `checkCallbackSign` and the class `PaymentnepalCallback` (`PaymentCallback` here).
  - The class holds the service registry and the record of hooks run.
  - `handle` and `callback` return a `Result` whose failure tags name the exceptions the source throws.

Every method that changes state step by step is proved against a function
of its inputs. Examples are the query loop, the signature-check loop, the
registry-building constructor, and the field-building methods that assign
one key at a time. Lemmas then state what the source promises about that
function.

## Model

| member | source | states |
|---|---|---|
| PhpStrings.Lower | alba.php:112 | `strtolower` keeps the length, turns each ASCII capital into its small letter (code plus 32), and changes no other byte |
| PhpStrings.Upper | alba.php:123 | `strtoupper` keeps the length, turns each ASCII small letter into its capital (code minus 32), and changes no other byte |
| PhpStrings.UpperOfLower | alba.php:112-123 | upper-casing a lower-cased method name gives the same as upper-casing it directly |
| PhpStrings.TrimRight | alba.php:114-115 | `rtrim` keeps a prefix whose last byte is outside the set, and every byte it drops is in the set |
| PhpStrings.Trim | alba.php:96 | `trim` keeps the middle piece: every byte dropped at either end is in the set, and neither end of what remains is |
| PhpStrings.ZeroPad2 | alba.php:337 | `sprintf('%02s')` is the input right-aligned in at least two bytes, padded on the left with `0` only |
| PhpStrings.NatToDecimal | alba.php:119 | an integer interpolated into a string is one or more decimal digits, with no leading zero unless it is `0` |
| PhpStrings.DecimalRoundTrip | alba.php:119 | the port written into the host line reads back as the same number |
| PhpStrings.Join | alba.php:125-132 | `implode` with a separator; it has no contract of its own, and `PhpStrings.SplitJoin` states that the parts can be recovered |
| PhpStrings.Concat | alba.php:391 | `implode` without a separator; it has no contract of its own, and `Callback.DigestInputLayout` states the string it makes of the digest input |
| PhpStrings.SplitJoin | alba.php:125-132 | lines joined with `\n` split back into the same lines when none holds a `\n` |
| PhpArray.Get | alba.php:386-387 | a lookup succeeds exactly when the key is set, and then yields the pair's value |
| PhpArray.Put | alba.php:231-237 | after `$a[k] = v` the key looks up `v` |
| PhpArray.PutShape | alba.php:231-237 | `$a[k] = v` appends a new key at the end and keeps an existing key's position, and never repeats a key |
| PhpArray.PutGetOther | alba.php:231-237 | `$a[k] = v` leaves every other key's value alone |
| PhpArray.Merge | alba.php:239-241 | `array_merge` with string keys assigns each pair of the second array into the first, in order; it has no contract of its own, and `PhpArray.MergeGet` and `PhpArray.MergeShape` state its values and keys |
| PhpArray.MergeGet | alba.php:239-241 | after `array_merge($a, $b)` a key has `b`'s value when `b` has it, else `a`'s |
| PhpArray.MergeShape | alba.php:239-241 | `array_merge` keeps all keys of both, repeats none, and is plain concatenation when the key sets are disjoint |
| PhpArray.MemberIffGet | alba.php:386-387 | in an array without repeated keys, holding a pair and looking it up are the same thing |
| PhpArray.ArrayLiteralShape | alba.php:220-230 | an array literal lists its keys in the order written and, with no key written twice, repeats none |
| PhpArray.ArrayLiteralGet | alba.php:220-230 | each key of such a literal looks up the value written beside it |
| Rfc3986.RawUrlEncode | alba.php:93 | the result is one to three times as long as the input; `Rfc3986.RawUrlEncodeAppend` and `Rfc3986.RawUrlEncodeByte` together fix every byte it writes |
| Rfc3986.RawUrlEncodeAppend | alba.php:93 | the encoding works byte by byte: a concatenation encodes as the concatenation of the encodings, so an unreserved byte inside a mixed value is encoded on its own |
| Rfc3986.RawUrlEncodeByte | alba.php:93 | an unreserved byte is written as itself, and any other byte as `%` followed by its two upper-case hexadecimal digits |
| Rfc3986.DecodeEncode | alba.php:93 | percent-decoding recovers exactly the bytes `rawurlencode` was given |
| Rfc3986.EncodedAlphabet | alba.php:93 | every byte `rawurlencode` writes is unreserved (section 2.3 of RFC 3986) or `%` |
| Rfc3986.EncodedHasNoDelimiters | alba.php:93 | an encoded value never holds `&`, `=` or a line break |
| Rfc3986.EncodeUnreserved | alba.php:93 | a value made only of unreserved bytes passes through unchanged |
| Rfc3986.EncodeSpace | alba.php:93 | a space becomes `%20`, never `+` |
| Query.BuildQuery | alba.php:82-97 | the query string; it has no contract of its own, and `Query.BuildQueryIsJoin`, `Query.QueryRoundTrip` and `Query.NoNewlineInQuery` state what it is |
| Query.HttpBuildQueryRfc3986 | alba.php:82-97 | the loop that appends `&key=encoded value` per pair, followed by the trim, yields the specified query string |
| Query.BuildQueryIsJoin | alba.php:82-97 | the query string is the `key=value` pieces joined by `&` in the array's order, empty for an empty array |
| Query.QueryRoundTrip | alba.php:82-97 | reading the query string back gives the original pairs in order, when no key holds `&` or `=` |
| Query.NoNewlineInQuery | alba.php:82-97 | no line break reaches the query string unless a key holds one |
| KeySort.KSort | alba.php:110 | `ksort` returns a permutation of the pairs, strictly ascending by key when the keys are unique |
| KeySort.SortByKeySorted | alba.php:110 | the key-sorted pairs of an array are strictly ascending |
| KeySort.SortedUnique | alba.php:110 | two strictly ascending pair sequences with the same pairs are equal |
| KeySort.SortByKeyOrderIndependent | alba.php:110 | the sorted pairs depend only on which pairs the array holds, not their order |
| KeySort.KeyLessTotal | alba.php:110 | the key order ranks any two different keys |
| KeySort.KeyLessTransitive | alba.php:110 | the key order is transitive |
| Url.ParseUrl | alba.php:113 | a reported port is at most 65535, a reported host is non-empty, a path after a host starts with `/`, a reported host or path holds no control byte (each one is replaced by `_`) and nothing but the URL's bytes and `_`, and a string with neither `:` nor a leading `//` is all path, control bytes replaced |
| Url.ParseRenderUrl | alba.php:113 | `scheme://host[:port][/path]` parses back into exactly the host, port and path it was written from, with control bytes replaced by `_` |
| Url.ParseRenderRelative | alba.php:113 | a scheme-relative `//host[:port][/path]` parses into exactly its host, port and path, with control bytes replaced by `_` |
| Url.ParseHostPort | alba.php:113 | `host:port[/path]` without a scheme, such as `a.com:80`, parses into that host, port and path, with control bytes replaced by `_` |
| Url.ParseSchemePath | alba.php:113 | `scheme:rest` without `//` and without a port after the `:`, such as `mailto:x`, reports `rest`, with control bytes replaced by `_`, as the path and no host |
| Signer.CanonicalPath | alba.php:114-115 | the path line is empty without a path; otherwise it is the path with its trailing `/` and `\` replaced by exactly one `/` |
| Signer.CanonicalPathIdempotent | alba.php:114-115 | canonicalising a canonical path changes nothing |
| Signer.TrailingSeparatorIgnored | alba.php:114-115 | an extra trailing `/` or `\` does not change the path line |
| Signer.CanonicalHost | alba.php:116-121 | the host line is the host, followed by `:port` exactly when a port other than 80 is present and not skipped; the port is written as at least one decimal digit without a leading zero and reads back as the parsed number |
| Signer.SigningString | alba.php:125-132 | the four lines joined by `\n`; it has no contract of its own, and `Signer.SigningStringLines`, `Signer.SigningOrderIndependent` and `Signer.SigningCaseInsensitive` state its properties |
| Signer.Signature | alba.php:134-140 | base64 of the HMAC-SHA256 of the signing string under the secret; it has no contract of its own, and `Signer.Sign` computes it |
| Signer.Sign | alba.php:108-143 | `sign` returns base64 of the HMAC-SHA256, under the secret, of the four lines joined by `\n`; `skipPort` defaults to false, as in PHP |
| Signer.SigningOrderIndependent | alba.php:108-143 | two parameter arrays with the same pairs in any order get the same signing string and signature |
| Signer.SigningCaseInsensitive | alba.php:112-123 | the case of the URL and of the method never changes the signing string |
| Signer.SigningStringLines | alba.php:125-132 | the signing string splits back into its four lines when the method and the keys hold no line break; the URL may hold any bytes, since `parse_url` leaves no line break in the host or path |
| RequestFields.IfTruthy | alba.php:289-299 | a value is kept exactly when it is given and PHP deems it true (neither `""` nor `"0"`) |
| RequestFields.FirstPay | alba.php:20-30 | `first_pay`'s array; it has no contract of its own, and `RequestFields.FirstPayShape` states its keys and values |
| RequestFields.NextPay | alba.php:32-39 | `next_pay`'s array; it has no contract of its own, and `RequestFields.NextPayShape` states its keys and values |
| RequestFields.FirstPayShape | alba.php:20-30 | `first_pay` sets exactly four keys: type `first`, the comment, the URL, and period `byrequest` |
| RequestFields.NextPayShape | alba.php:32-39 | `next_pay` sets exactly two keys: type `next` and the first order's id |
| RequestFields.RecurrentParamsFit | alba.php:14-39 | neither `first_pay` nor `next_pay` repeats a key or sets one of `initPayment`'s own keys |
| RequestFields.InitPaymentBaseShape | alba.php:220-230 | a payment starts from nine keys in order, with `background` = `1`, `version` = `2.0`, the service's id and the given amount, name, contacts, commission and type |
| RequestFields.InitPaymentOwnShape | alba.php:220-237 | the payment's own fields are the nine base keys, then `order_id` and `card_token` each when given, with no key twice and no `check` |
| RequestFields.InitPaymentOwnValues | alba.php:220-237 | `order_id` and `card_token` hold their values when given and are absent otherwise, and base keys keep their values |
| RequestFields.InitPaymentOwnByPuts | alba.php:231-237 | the two conditional assignments build exactly those fields |
| RequestFields.InitPaymentFields | alba.php:215-241 | the fields `initPayment` signs; it has no contract of its own, and `RequestFields.InitPaymentFieldsKeys`, `RequestFields.InitPaymentFieldsGet` and `RequestFields.InitPaymentFixedValues` state its keys and values |
| RequestFields.InitPaymentFieldsKeys | alba.php:220-241 | with fitting recurrent fields, the signed keys are the base keys, then `order_id` and `card_token` when given, then the recurrent keys, with no key twice and no `check` |
| RequestFields.InitPaymentFieldsGet | alba.php:239-241 | a recurrent field wins over the payment's own field of that name, and every other field keeps its own value |
| RequestFields.InitPaymentFixedValues | alba.php:220-241 | unless overridden, a payment signs `background` = `1`, `version` = `2.0`, the service id, the amount and type, and `order_id`/`card_token` exactly when given |
| RequestFields.InitPaymentDefaultCommission | alba.php:216-226 | a payment made without naming a commission signs `commission` = `partner` |
| RequestFields.InitPaymentNextPay | alba.php:32-39 | a follow-up payment carries `recurrent_type` = `next` and the first order's id, and no recurrent comment or URL |
| RequestFields.RefundFields | alba.php:283-299 | the fields `refund` signs; it has no contract of its own, and `RequestFields.RefundFieldsKeys`, `RequestFields.RefundFieldsValues` and `RequestFields.RefundByPuts` state them |
| RequestFields.RefundFieldsKeys | alba.php:286-299 | refund keys are `version` and `tid`, then `amount`, `test`, `reason` each when set, with no key twice and no `check` |
| RequestFields.RefundFieldsValues | alba.php:286-299 | `amount` and `reason` are sent only when truthy, `test` = `1` only for a test, and `version`/`tid` always |
| RequestFields.RefundByPuts | alba.php:286-299 | the three conditional assignments build exactly the refund fields |
| RequestFields.CardTokenFields | alba.php:335-349 | the fields `createCardToken` sends; it has no contract of its own, and `RequestFields.CardTokenFieldsKeys`, `RequestFields.CardTokenFieldsValues` and `RequestFields.CardTokenByPuts` state them |
| RequestFields.CardTokenFieldsKeys | alba.php:339-349 | card-token keys are the service id, card, month, year and CVC in order, then `card_holder` when truthy; never `check` |
| RequestFields.CardTokenFieldsValues | alba.php:337-349 | the month is sent zero-padded to two digits, the holder only when truthy, and everything else as given |
| RequestFields.CardTokenByPuts | alba.php:339-349 | the literal and the conditional holder assignment build exactly the card-token fields |
| Requests.SignedFields | alba.php:245-250 | the fields with `check` set to their signature as a POST or GET of the URL, as each API call does; it has no contract of its own, and `Requests.SignedFieldsShape` and `Requests.SignedFieldsGet` state it |
| Requests.SignedFieldsShape | alba.php:245-250 | the signature covers the fields without `check`, and `check` is appended last, changing no other field |
| Requests.SignedFieldsGet | alba.php:245-250 | after signing, every field but `check` keeps its value and `check` holds the signature |
| Requests.SignedLiteral | alba.php:264-271 | a signed literal sends its keys in the order written and then `check`, the signature over the literal alone |
| Requests.InitPayment | alba.php:215-252 | `initPayment` hands `_curl` a POST to `alba/input/` with the merged fields and their `check`; the optional arguments default, as in PHP, to no order id, the `partner` commission, no card token and no recurrent fields |
| Requests.InitPaymentKeys | alba.php:215-252 | a payment sends its own keys, the recurrent keys and `check` last, the signature over all the others, which reach the request unchanged |
| Requests.TransactionDetails | alba.php:261-272 | `transactionDetails` hands `_curl` a signed POST to `alba/details/` |
| Requests.TransactionDetailsShape | alba.php:261-272 | a details query sends `tid`, `version` = `2.0` and the `check` over those two |
| Requests.Refund | alba.php:283-307 | `refund` hands `_curl` a signed POST to `alba/refund/` with the conditional fields; amount, test flag and reason default, as in PHP, to none, false and none |
| Requests.RefundShape | alba.php:283-307 | a refund sends its keys, each optional field only under its condition, and `check` last over all others |
| Requests.GateDetails | alba.php:315-326 | `gateDetails` signs its fields as a GET of `alba/gate_details/` |
| Requests.GateDetailsShape | alba.php:315-326 | a gate query carries `version` = `2.0`, the gate, the service id, and the `check` over those three, signed as a GET |
| Requests.CreateCardToken | alba.php:335-353 | `createCardToken` hands `_curl` an unsigned POST to the test or the secure host's `create` endpoint; the card holder defaults to none, as in PHP |
| Requests.CardTokenEndpointTest | alba.php:351-353 | the endpoint is the test host's exactly for a test token |
| Requests.CardTokenShape | alba.php:335-353 | a card-token request is a POST, goes to the test host exactly for a test, and carries the card fields without `check` |
| Callback.CheckCallbackSign | alba.php:362-392 | the loop collects the present listed fields in order, appends the secret, and accepts exactly when `check` equals their MD5 |
| Callback.PresentValues | alba.php:384-389 | one value per listed field the notification carries, never more than the list, and as many as the list exactly when every listed field is present |
| Callback.PresentValuesAppend | alba.php:384-389 | collecting over two lists of fields in turn gives the values of the first list, then those of the second |
| Callback.DigestInput | alba.php:384-391 | what `md5` is applied to; it has no contract of its own, and `Callback.DigestInputLayout` states its layout |
| Callback.CallbackSignValid | alba.php:391 | the verdict of `checkCallbackSign`; it has no contract of its own, `Callback.CheckCallbackSign` computes it, and `Callback.MissingCheckFails` and `Callback.CallbackSignDependsOnListedFields` state its properties |
| Callback.DigestInputLayout | alba.php:384-391 | the secret is hashed last, after every present value |
| Callback.MissingCheckFails | alba.php:391 | a notification without `check` never passes |
| Callback.PresentValuesAgree | alba.php:384-389 | two notifications agreeing on the eighteen listed fields contribute the same values |
| Callback.PresentValuesAll | alba.php:384-389 | when every listed field is present, each contributes its value, in list order |
| Callback.PresentValuesNone | alba.php:384-389 | absent fields are skipped, not replaced by an empty string |
| Callback.CallbackSignDependsOnListedFields | alba.php:362-392 | the verdict depends only on the eighteen listed fields and `check`, never on extra fields or their order |
| Callback.Route | alba.php:435-447 | any command other than the four fails with an unexpected-command error naming it |
| Callback.RouteExact | alba.php:435-447 | exactly the four commands are routed, each to its own hook |
| Callback.Registry | alba.php:401-407 | a service id is registered exactly when some configured service has it |
| Callback.RegistryLastWins | alba.php:404-406 | the service registered under an id is the last configured service with that id |
| Callback.HandleOutcome | alba.php:412-430 | `handle`'s outcome; it has no contract of its own, and `Callback.HandleSucceedsIff` and `Callback.HandleErrorOrder` state it |
| Callback.HandleSucceedsIff | alba.php:412-430 | a notification reaches a hook exactly when it names a registered service, its `check` verifies under that service's secret, and its command is one of the four; the hook is the one for that command |
| Callback.HandleErrorOrder | alba.php:414-429 | a missing `service_id` is reported first, then an unknown service, then a bad signature |
| Callback.PaymentCallback.constructor | alba.php:401-407 | the loop builds the registry, a later service replacing an earlier one with the same id, and no hook has run |
| Callback.PaymentCallback.CallbackProcess | alba.php:453-455 | the `process` hook runs once and changes nothing else |
| Callback.PaymentCallback.CallbackSuccess | alba.php:460-462 | the `success` hook runs once and changes nothing else |
| Callback.PaymentCallback.CallbackRecurrentCancel | alba.php:467-469 | the `recurrent_cancel` hook runs once and changes nothing else |
| Callback.PaymentCallback.CallbackRefund | alba.php:474-476 | the `refund` hook runs once and changes nothing else |
| Callback.PaymentCallback.Callback | alba.php:435-448 | `callback` runs exactly the hook its command names, or none and fails for any other command |
| Callback.PaymentCallback.Handle | alba.php:412-430 | `handle` leaves the registry alone, runs exactly one hook when it succeeds and none when it fails, with the outcome `HandleSucceedsIff` and `HandleErrorOrder` describe |

## Left out

- `payTypes` (alba.php:196-203): a GET whose only logic is an MD5 of the service id and secret, sent through `_curl`. It is not part of this model.
- `_curl` (alba.php:152-189): the HTTP transport, POST-body encoding with `http_build_query`, JSON decoding, `status == "error"` handling and its exceptions are not modelled. Each API call's method stops at the request it hands to `_curl` and does not model the answer it returns.
- `gateDetails` (alba.php:327): the query string appended to the URL after signing uses `http_build_query` (form encoding) and is not modelled; the signed fields are.
- `createCardToken` returning `$answer->token`: not modelled, since it depends on the gateway's response.
- `_log` and the `CURL_TIMEOUT` constant: logging and transport configuration have no bearing on the signed data.
- `PaymentnepalException` (alba.php:4-10) is not modelled as a class. Errors are the tags of `Callback.CallbackError`. `handle` and `callback` construct it with one argument although its constructor declares two. PHP 7.1 and later would raise an argument-count error there, so the model records the error that was evidently meant.
- MD5, HMAC-SHA256 and base64 are parameters (`Crypto.Primitives`), not implementations (RFC 1321, RFC 2104, RFC 4648).
- `KeySort.KSort`: `ksort` with `SORT_LOCALE_STRING` follows the process locale. The model uses byte-wise lexicographic order, which is the "C" locale.
- `Url.ParseUrl` models `scheme://host[:port][/path]`, the scheme-relative `//host[:port][/path]`, `host:port[/path]` (a scheme-like name, then one to five digits) and `scheme:path`; a string with neither `:` nor a leading `//` is all path. As in `parse_url`, control bytes (0x00-0x1F and 0x7F) in the host and path are replaced by `_`. Not modelled: query (`?`) and fragment (`#`), which the model leaves in the path or the authority; user info (`@`); bracketed IPv6 hosts; the special case of `file:///`; strings starting with `:`; and strings whose text before the first `:` is not a scheme name but that hold a `?`. A port text that is not plain digits makes the model report the URL as unparsable. A bare `scheme:` sets only the scheme, which the signer does not read, and the model records no component for it. The `false` that `parse_url` returns is modelled only as a result with no host, port or path.
- `Callback.PaymentCallback.Handle`: `in_array` at alba.php:420 compares loosely, so an id of `"05"` would match a service registered as `5`. The model compares the id text exactly.
- Service ids are carried as the decimal text PHP interpolates, and a flag such as `$test` as a `bool`. PHP truthiness is modelled only for string values (`""` and `"0"` are false). Integer, float and null values are not modelled.
- `Query.QueryRoundTrip` holds only for keys without `&` or `=`, because alba.php:91 writes keys unescaped. `Query.BuildQueryIsJoin` also needs a first key that does not start with `&`, because the trim at alba.php:96 would remove it.
- `Signer.SigningStringLines` needs a method and keys without line breaks, since nothing in alba.php:125-132 escapes them.
- `RequestFields.InitPaymentFieldsKeys` and `Requests.InitPaymentKeys` state the key order only for recurrent fields that keep clear of the payment's own keys, as `first_pay` and `next_pay` do (`RequestFields.RecurrentParamsFit`). For other recurrent arrays, `RequestFields.InitPaymentFieldsGet` states the values.
- `Callback.PaymentCallback`: the four hooks are empty in the source and are meant to be overridden. The model records each hook call in `hooksRun` so that "exactly one hook, once" can be stated; subclassing itself is not modelled.
