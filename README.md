# fink-pearl-mock, modelled in Dafny

The repository serves mock endpoints for two providers. The Fink endpoints
open payment sessions and make transfers. The Pearl endpoints verify
university ids and student ids. Each endpoint parses a JSON body, checks
that one or two fields are present and have the right type, trims the id,
and classifies it by its suffix. The Fink endpoints block ids ending in
`999`; the Pearl endpoints block ids ending in `000`. A small codec writes a
session id as `<uuid>::<tag>` and reads the tag back.

This project models that logic as pure Dafny functions over plain
datatypes and proves what the endpoints promise about it.

- `Wrappers.dfy`: `Option` and `Result`.
- `JsText.dfy`: the JavaScript string operations the code uses.
  `trim` strips the ECMAScript WhiteSpace and LineTerminator set.
  `endsWith` holds exactly when the string is some string followed by the
  suffix. `includes` scans from the left and holds exactly when the substring
  occurs at some index.
  `split` with a non-empty separator cuts left to right without overlap, so
  `"a:::b"` gives `["a", ":b"]` and `""` gives `[""]`.
  `join` is its inverse.
- `JsError.dfy`: thrown values (an `Error` of some class with its message,
  or any other value with its `String(...)` text).
- `Json.dfy`: a parsed body as a JSON value. It also models property reads,
  including optional chaining (`?.`), and JavaScript truthiness. A read on
  `null` throws a `TypeError`, as V8 does. A read on any other non-object
  gives `undefined`.
- `Http.dfy`: the response envelope, and the `catch` classifier that every
  handler repeats. A `SyntaxError`, or a message containing `JSON`, gives 400
  "Invalid JSON in request body". Anything else gives 500.
- `FinkSession.dfy`: `encodeSessionId` and `decodeSessionId`.
- `FinkSessionsRoute.dfy`, `FinkTransfersRoute.dfy`,
  `PearlUniversityRoute.dfy`, `PearlStudentRoute.dfy`: the four `POST`
  handlers. Each handler takes the outcome of parsing the body (a JSON value,
  or what the parser threw) and returns a response.

The source tests an id with `!id || id.length === 0`. For a string both
tests mean "empty", so the model tests `id == []`.

A JSON body of `null` is valid JSON. Reading a field from it throws a
`TypeError` whose message does not mention `JSON`, so every handler answers
it with 500 rather than 400. The `PostNullBody` lemmas prove this. A body
that is a number, string, boolean or array has no fields, so it gets the
400 for a missing field.

Inputs that the runtime supplies in the source are parameters here:

- the uuid from `randomUUID`;
- the 16 draws `Math.floor(Math.random() * 32)`, as a sequence of `Draw`
  values below 32;
- the `new Date().toISOString()` readings `processedAt` and `checkedAt`.

## Model

| member | source | states |
|---|---|---|
| `JsText.Trim` | app/api/fink/sessions/route.ts:36 | the trimmed id has no white space at either end, is no longer than the input, and is empty exactly when the input is all white space |
| `JsText.TrimIsInnerSlice` | app/api/fink/sessions/route.ts:36 | trimming removes only white space: the input is some white space, then the trimmed id, then some white space |
| `JsText.TrimCutsAtText` | app/api/fink/sessions/route.ts:36 | when the input holds text, the trimmed id is the slice from its first to just past its last non-white-space character, with only white space outside it |
| `JsText.TrimIdempotent` | app/api/pearl/student-verifications/route.ts:36 | trimming an already trimmed id changes nothing |
| `JsText.EndsWithIffConcat` | app/api/fink/sessions/route.ts:42 | `endsWith` holds exactly when the string is some string followed by the suffix |
| `JsText.Contains` | app/api/fink/transfers/route.ts:107 | `includes` is true exactly when the substring occurs at some index |
| `JsText.Split` | lib/finkSession.ts:18 | split gives at least one piece, and the empty string gives the single piece `""` |
| `JsText.JoinSplit` | lib/finkSession.ts:18 | joining the pieces of `split('::')` with `::` gives back the input |
| `JsText.SplitPiecesFree` | lib/finkSession.ts:18 | no piece of a split contains the separator |
| `JsText.SplitHeadLeftmost` | lib/finkSession.ts:18 | the first piece ends at the leftmost occurrence of the separator |
| `JsText.SplitSingleIff` | lib/finkSession.ts:18-20 | split gives a single piece exactly when the separator does not occur |
| `JsText.SplitAfterPrefix` | lib/finkSession.ts:18 | if no occurrence of the separator starts inside `u`, then `u ++ sep ++ t` splits into `u` followed by the pieces of `t` |
| `Json.Read` | app/api/fink/transfers/route.ts:48 | a property read throws a `TypeError` with V8's message exactly when the receiver is `null`; otherwise it gives the property |
| `Json.ReadOptional` | app/api/fink/transfers/route.ts:57 | an optional-chaining read is defined exactly when the receiver is an object holding the key, and then it is that field |
| `Json.Prop.Truthy` | app/api/fink/transfers/route.ts:48 | a property is falsy exactly when it is `undefined`, `null`, `false`, `0` or `""` |
| `Json.NullReadMessageWithoutJson` | app/api/fink/transfers/route.ts:106-107 | the `TypeError` from reading a field of `null` does not mention `JSON` when the field name has no `J` |
| `Http.Classify` | app/api/fink/transfers/route.ts:104-122 | the status is 400 with "Invalid JSON in request body" exactly for a SyntaxError or a message containing `JSON`; otherwise it is 500 InternalError with "An unexpected error occurred" |
| `Http.Respond` | app/api/fink/transfers/route.ts:44-122 | a handler that returns gives its response unchanged; one that throws gives the response the `catch` classifier picks for the thrown value |
| `Http.ClassifyJsonMention` | app/api/fink/transfers/route.ts:107 | any thrown value whose message has `JSON` anywhere in it, of any class, gets the 400 response |
| `FinkSession.ParseTag` | lib/finkSession.ts:23-24 | exactly the three tag texts are recognised, each as its own tag |
| `FinkSession.UuidTextColonFree` | lib/finkSession.ts:13 | UUID text (8-4-4-4-12 lower-case hex digits) holds no colon |
| `FinkSession.EncodeSessionId` | lib/finkSession.ts:11-15 | the session id starts with the uuid, ends with `::` and the tag's text, and has the length of both plus two |
| `FinkSession.DecodeSessionId` | lib/finkSession.ts:17-29 | decoding is total; the uuid it returns is a prefix of the input; whenever a tag is returned, re-encoding the uuid and tag gives back the input exactly |
| `FinkSession.DecodeEncode` | lib/finkSession.ts:11-25 | round trip: for a uuid without `:`, decoding its encoding with any tag returns the same uuid and tag |
| `FinkSession.DecodeEncodeUuid` | lib/finkSession.ts:12-14 | the round trip holds for every uuid in the text form `randomUUID` produces |
| `FinkSession.DecodeEncodeTrailingColon` | lib/finkSession.ts:18 | the round trip needs its precondition: for a uuid `p:` with `p` colon-free, decoding returns uuid `p` and no tag |
| `FinkSession.DecodeWithoutSeparator` | lib/finkSession.ts:18-20 | a string without `::` decodes to itself with no tag |
| `FinkSession.DecodeManySeparators` | lib/finkSession.ts:19-20 | a split with three or more pieces decodes to the whole input with no tag |
| `FinkSession.DecodeUnknownTag` | lib/finkSession.ts:23-28 | with exactly two pieces and an unknown second piece, the result is the first piece with no tag |
| `FinkSession.DecodedUuidClean` | lib/finkSession.ts:18-25 | a uuid returned with a tag holds no `::` and does not end in `:` |
| `FinkSession.DecodeRecognisesEncodings` | lib/finkSession.ts:17-29 | decoding yields tag `t` exactly for the strings `u::t` where `u` holds no `::` and does not end in `:` |
| `FinkSessionsRoute.TagFor` | app/api/fink/sessions/route.ts:39-46 | INVALID_ACCOUNT exactly for the empty id; ACCOUNT_BLOCKED exactly for non-empty ids ending in `999`; SUCCESS for every other id |
| `FinkSessionsRoute.Post` | app/api/fink/sessions/route.ts:22-76 | a parse failure is classified; the status is 200, 400 or 500; on 200 `statusHint` is the tag the account rule gives the echoed id, and `sessionId` encodes the uuid with that tag |
| `FinkSessionsRoute.PostRequiresAccountId` | app/api/fink/sessions/route.ts:27-34 | a missing or non-string `finkAccountId` gives 400 BadRequest "finkAccountId is required" |
| `FinkSessionsRoute.PostAccepts` | app/api/fink/sessions/route.ts:36-54 | a string `finkAccountId` always gives 200; the trimmed id is echoed and tagged by the account rule |
| `FinkSessionsRoute.PostBlankIdInvalid` | app/api/fink/sessions/route.ts:36-41 | an id made only of white space gives 200 with INVALID_ACCOUNT |
| `FinkSessionsRoute.PostDependsOnTrimmedId` | app/api/fink/sessions/route.ts:36-53 | two ids with the same trimmed form get identical responses |
| `FinkSessionsRoute.PostNullBody` | app/api/fink/sessions/route.ts:24-27 | a `null` body gives 500 |
| `FinkSessionsRoute.PostHintDecodes` | app/api/fink/sessions/route.ts:48-54 | for a uuid in canonical form and a string `finkAccountId`, the request succeeds and decoding the returned `sessionId` gives back the uuid and `statusHint` |
| `FinkTransfersRoute.GenerateTransactionId` | app/api/fink/transfers/route.ts:35-41 | the id is `tr_` followed by 16 alphabet symbols, and the k-th symbol is the one at the k-th draw |
| `FinkTransfersRoute.AlphabetSpelled` | app/api/fink/transfers/route.ts:38 | the alphabet string has 32 characters, and the character at each position is the symbol computed for that position |
| `FinkTransfersRoute.SymbolsAreAlphabet` | app/api/fink/transfers/route.ts:38 | a character is in the alphabet exactly when it is an upper-case letter other than I and O, or a digit from 2 to 9 |
| `FinkTransfersRoute.SymbolRoundTrip` | app/api/fink/transfers/route.ts:38 | every symbol sits at the position computed from its code point, so the 32 symbols are distinct |
| `FinkTransfersRoute.GeneratedFromAlphabet` | app/api/fink/transfers/route.ts:39 | the k-th symbol after `tr_` is `chars[draw_k]` |
| `FinkTransfersRoute.DrawsOfGenerate` | app/api/fink/transfers/route.ts:39 | the draws can be read back from a generated id, so distinct draws give distinct ids |
| `FinkTransfersRoute.GenerateDrawsOf` | app/api/fink/transfers/route.ts:35-41 | every well-formed id is what the generator makes from the draws read from it |
| `FinkTransfersRoute.TransactionIdAvoidsLookalikes` | app/api/fink/transfers/route.ts:37-40 | a generated id has 19 characters and never contains I, O, 0 or 1 |
| `FinkTransfersRoute.CurrencyOf` | app/api/fink/transfers/route.ts:68 | a falsy currency (absent, `null`, `false`, `0` or `""`) becomes `USD`; any truthy value is echoed unchanged |
| `FinkTransfersRoute.Decide` | app/api/fink/transfers/route.ts:72-101 | SUCCESS exactly for non-empty ids not ending in `999`, and then the transaction id is the one generated from the draws, with no failure code or reason; the empty id fails with INVALID_ACCOUNT and "Account ID is missing or empty"; a non-empty id ending in `999` fails with ACCOUNT_BLOCKED and "Transfers from this account are blocked"; a failure has no transaction id; `processedAt` and `echo` carry the inputs |
| `FinkTransfersRoute.Post` | app/api/fink/transfers/route.ts:43-123 | a parse failure is classified; the status is 200, 400 or 500; on 200 the echoed account id is trimmed and the payload is the transfer decision on the echoed id, amount and currency, with the clock reading and the draws |
| `FinkTransfersRoute.HandleAnswersDecision` | app/api/fink/transfers/route.ts:46-101 | whenever the handler answers 200, the echoed id is trimmed and the payload is the transfer decision on what it echoes |
| `FinkTransfersRoute.PostChecksAccountIdFirst` | app/api/fink/transfers/route.ts:48-55 | a falsy `sourceAccount`, or a non-string `id`, gives 400 "sourceAccount.id is required", whatever the transaction holds |
| `FinkTransfersRoute.PostRequiresNumericAmount` | app/api/fink/transfers/route.ts:57-64 | with a string account id, a missing or non-number amount gives 400 "transaction.amount is required and must be a number" |
| `FinkTransfersRoute.PostDecides` | app/api/fink/transfers/route.ts:46-101 | any object body whose `sourceAccount.id` is a string and whose `transaction.amount` is a number, whatever other fields it carries, gets 200 with the transfer decision on the trimmed id, that amount and the defaulted currency |
| `FinkTransfersRoute.HandleDecides` | app/api/fink/transfers/route.ts:46-101 | the handler itself returns that decision for such a body, without throwing |
| `FinkTransfersRoute.PostNullBody` | app/api/fink/transfers/route.ts:45-48 | a `null` body gives 500 |
| `PearlUniversityRoute.Check` | app/api/pearl/university-verifications/route.ts:50-62 | verified exactly when the id is non-empty and does not end in `000`; the empty-id reason exactly for the empty id; the blocked reason exactly for the blocked ids; the accepted reason exactly when verified |
| `PearlUniversityRoute.Post` | app/api/pearl/university-verifications/route.ts:32-95 | a parse failure is classified; the status is 200, 400 or 500; on 200 the metadata is provider `Pearl` with rule `simple-suffix-check`, `checkedAt` is the clock reading, and `verified` holds exactly for non-empty echoed ids not ending in `000` |
| `PearlUniversityRoute.PostRequiresUniversityId` | app/api/pearl/university-verifications/route.ts:37-44 | a falsy `student`, or a non-string `universityId`, gives 400 "student.universityId is required" |
| `PearlUniversityRoute.PostAccepts` | app/api/pearl/university-verifications/route.ts:46-73 | a string `universityId` always gives 200 with the trimmed id, its verdict and the fixed metadata |
| `PearlUniversityRoute.PostBlankIdNotVerified` | app/api/pearl/university-verifications/route.ts:49-55 | an id made only of white space gives 200, unverified, with "Invalid or empty university ID" |
| `PearlUniversityRoute.PostNullBody` | app/api/pearl/university-verifications/route.ts:34-37 | a `null` body gives 500 |
| `PearlStudentRoute.Check` | app/api/pearl/student-verifications/route.ts:40-52 | verified exactly when the id is non-empty and does not end in `000`; the empty-id reason exactly for the empty id; the blocked reason exactly for the blocked ids; "Student ID accepted" exactly when verified |
| `PearlStudentRoute.Post` | app/api/pearl/student-verifications/route.ts:22-82 | a parse failure is classified; the status is 200, 400 or 500; on 200 the role is `STUDENT`, `checkedAt` is the clock reading, and `verified` holds exactly for non-empty echoed ids not ending in `000` |
| `PearlStudentRoute.PostRequiresPersonId` | app/api/pearl/student-verifications/route.ts:27-34 | a missing or non-string `personId` gives 400 "personId is required" |
| `PearlStudentRoute.PostAccepts` | app/api/pearl/student-verifications/route.ts:36-60 | a string `personId` always gives 200 with the trimmed id, its verdict and role `STUDENT` |
| `PearlStudentRoute.PostBlankIdNotVerified` | app/api/pearl/student-verifications/route.ts:39-45 | an id made only of white space gives 200, unverified, with "Invalid or empty person ID" |
| `PearlStudentRoute.PostNullBody` | app/api/pearl/student-verifications/route.ts:24-27 | a `null` body gives 500 |

## Left out

- HTTP plumbing (`NextRequest`, `NextResponse.json`, the async handler) is not modelled. A request is the outcome of parsing its body, and a response is a plain datatype.
- JSON parsing by `request.json()` is a library parser and is not modelled. The model takes its outcome: a JSON value, or the value it threw. Duplicate keys, the `__proto__` key and lone surrogates are parser details and are not represented.
- Randomness and clocks are not modelled. `randomUUID`, `Math.random` and `new Date().toISOString()` are parameters.
- The floating-point meaning of JSON numbers is not modelled. They are exact `real` values. The handlers test their type, echo them, and test them for truthiness (`|| 'USD'`, `!body.sourceAccount`, `!body.student`), and truthiness is taken on the exact value: a literal such as `1e-400`, which JavaScript parses to `0` and treats as falsy, is a non-zero truthy number here.
- Strings are sequences of Unicode scalar values, not UTF-16 code units. Trimming and suffix tests agree on the two views for every string that has no lone surrogate.
- The TypeScript interfaces and the `as SessionTag` cast are not modelled. They are types only, with no runtime behaviour.
