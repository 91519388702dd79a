# Payments core: validator, error taxonomy and handler decisions

This project models the decision logic of a small payments service in Dafny and proves properties about it. The service creates, gets and lists payment records behind three HTTP handlers. The model covers three parts:

- **The payment-input validator** (`validatePaymentInput`, `isValidCurrency` and the `Currency` enum). It is a total classifier from any JavaScript value to `{isValid, errors}`. A value that is not a truthy object gets the single message "Invalid input format". Any other value is judged by three rules, in this order:
  - unexpected keys, reported as one message;
  - `amount`, an else-if chain;
  - `currency`, an else-if chain.
- **The error taxonomy.** It has four error classes: `PaymentError`, `ValidationError`, `NotFoundError` and `BadRequestError`. Each has a status code, and the subclasses have default messages. The model also holds both `ErrorMessages` tables.
- **The decisions of the get, list and create handlers.** Each handler is a pure function. It takes the request fields and the repository as a parameter, and it returns the response (status and body) together with the repository calls it made.

JavaScript values are the datatype `JsValues.JsValue`: undefined, null, booleans, numbers, strings, arrays, and objects as insertion-ordered key/value sequences. A number is one of four abstract kinds: `Finite(real)`, `+Infinity`, `-Infinity` or `NaN`. With these kinds, the `<= 0` and `isFinite` checks are case analysis, with no floating-point arithmetic. Truthiness, `typeof`, `Object.keys`, property reads and object literals with a spread are modelled as far as the core uses them, with the departures listed under "## Left out".

The model follows the code wherever the specification disagrees with it:

- The allow-list is `{USD, AUD}`, the two members of the enum, not five codes.
- The amount rule is an else-if chain, so it adds at most one message. `NaN` and `+Infinity` get only "Amount must be a finite number". `-Infinity` gets only "Amount must be greater than 0", not both messages.
- The unexpected-fields message comes first, not last.
- An empty-string currency gets "Currency must be a 3-letter uppercase code", not "Currency is required".
- The create handler never calls the validator. It can only answer 201 or 500. The 422 answers expected by test/createPayment.test.ts:33-105 are not produced by this code. `CreatePayment.CreatesWithoutValidating` exhibits a body without an amount that the validator rejects and the handler stores with 201.
- The code has no `ConflictError`, no conditional write, no sorting of listings and no `createdAt` stamping in the handlers. The model has none of them either.
- src/lib/error.ts and src/lib/errors.ts declare the same four classes, line for line. They are modelled once, in `PaymentErrors`. Their two `ErrorMessages` tables differ, so they are modelled as two separate maps: `ErrorMessageTable` and `ErrorsMessageTable`.

## Model

| member | source | states |
|---|---|---|
| Currencies.Parse | src/lib/validation.ts:1-4 | a string names an enum member exactly when it passes `isValidCurrency`, and then that member's value is the string itself |
| Currencies.ParseCode | src/lib/validation.ts:1-4 | every enum value is accepted and names its own member again |
| Currencies.AllowListIsExact | src/lib/validation.ts:16-18 | `isValidCurrency` accepts exactly "USD" and "AUD", by exact case-sensitive equality |
| Currencies.RejectedCodes | test/validation.test.ts:46-56 | "usd", "aud", "EUR", "GBP", "SGD" and "" are all rejected |
| JsValues.TruthyObjectIsArrayOrObject | src/lib/validation.ts:23 | the shape check (falsy, or `typeof` other than "object") lets through exactly the arrays and objects: null, undefined, false, 0, NaN, "" and every other primitive are stopped |
| JsValues.AssignLookup | src/createPayment.ts:13-16 | in an object literal, the last write to a key wins; keys that are never written keep their earlier value |
| Validation.UnexpectedFields | src/lib/validation.ts:28-30 | a key is reported exactly when it is provided and is neither `amount` nor `currency` |
| Validation.UnexpectedFieldsAppend | src/lib/validation.ts:30 | the filter keeps the keys' relative order: filtering a concatenation concatenates the filtered parts |
| Validation.UnexpectedFieldsError | src/lib/validation.ts:32-34 | there is no unexpected-fields message exactly when every key is allowed; when there is one, it starts with "Unexpected fields: " |
| Validation.ExtraKeyErrors | src/lib/validation.ts:27-54 | an amount, a currency and one key outside the allowed fields give the message naming that key, then the amount and currency rules' messages |
| Validation.AmountError | src/lib/validation.ts:36-45 | for each amount message, the exact class of values that gets it: null/undefined → required; a non-number → must be a number; -Infinity or a finite value ≤ 0 → greater than 0; +Infinity or NaN → finite; no message exactly for a positive finite number |
| Validation.CurrencyError | src/lib/validation.ts:47-54 | for each currency message, the exact class of values that gets it: null/undefined → required; a non-string → must be a string; a string outside the allow-list, "" included → 3-letter code; no message exactly for an allowed code |
| Validation.ValidatePaymentInput | src/lib/validation.ts:20-60 | `isValid` holds exactly when `errors` is empty, and there are never more than three errors |
| Validation.ShapeRejection | src/lib/validation.ts:23-25 | a non-object input gets exactly `{isValid: false, errors: ['Invalid input format']}`, and no array or object input ever gets that list |
| Validation.KnownMessages | src/lib/validation.ts:20-60 | every message is the shape message, an unexpected-fields message, or one of the amount or currency messages |
| Validation.NeverEmitted | src/lib/validation.ts:20-60 | a string that is none of the rules' messages never appears in the errors |
| Validation.ErrorOrder | src/lib/validation.ts:27-54 | messages appear in rule order (unexpected fields, then amount, then currency), at most one per rule |
| Validation.UnexpectedFieldsFirst | src/lib/validation.ts:27-34 | when some key is not allowed, the first message lists all such keys in key order; otherwise no message is about unexpected fields |
| Validation.AmountContribution | src/lib/validation.ts:36-45 | an amount message appears in the verdict of an object exactly when the amount rule chooses it |
| Validation.CurrencyContribution | src/lib/validation.ts:47-54 | a currency message appears in the verdict of an object exactly when the currency rule chooses it |
| Validation.AcceptsExactly | src/lib/validation.ts:20-60 | an input is valid exactly when it is an object with no key other than amount/currency, a positive finite amount, and currency "USD" or "AUD" |
| Validation.PaymentObjectErrors | src/lib/validation.ts:27-54 | an object holding only amount and currency is judged by the amount and currency rules alone |
| Validation.AmountAloneReports | src/lib/validation.ts:36-54 | with an enum currency code, the verdict holds exactly the amount rule's message, if any |
| Validation.CurrencyAloneReports | src/lib/validation.ts:36-54 | with a positive finite amount and a string currency, the verdict is empty for an allowed code and otherwise holds only the 3-letter-code message |
| Validation.NonFiniteAmounts | src/lib/validation.ts:41-44 | NaN and +Infinity yield only the finiteness message; -Infinity and -100 yield only the positivity message |
| Validation.AcceptedCodes | test/validation.test.ts:58-68 | USD and AUD with amount 1000 are valid with no errors |
| Validation.RejectedCurrencyStrings | test/validation.test.ts:46-56 | "", "usd" and "EUR" with amount 1000 yield only the 3-letter-code message |
| Validation.AllRulesReport | src/lib/validation.ts:27-54 | `{amount: "x", currency: 123, extra: 1}` yields the unexpected-fields, number and string messages, in that order |
| PaymentErrors.NewPaymentError | src/lib/error.ts:1-9 | the status code defaults to 500; a supplied code is kept unchanged; the message is kept |
| PaymentErrors.NewValidationError | src/lib/error.ts:11-19 | status 422; the message defaults to "Validation failed"; the errors list defaults to [] and a supplied list is stored unchanged |
| PaymentErrors.NewNotFoundError | src/lib/error.ts:21-26 | status 404; the message defaults to "Resource not found" |
| PaymentErrors.NewBadRequestError | src/lib/error.ts:28-33 | status 400; the message defaults to "Bad request" |
| PaymentErrors.StatusIdentifiesSubclass | src/lib/error.ts:1-33 | 422, 404 and 400 are pairwise distinct and differ from the default 500, so a subclass instance's status code names its class |
| MessageAgreement.ErrorTableMatchesValidator | src/lib/error.ts:41-48 | the AMOUNT_\*, CURRENCY_\* and INVALID_INPUT_FORMAT entries equal the validator's literals |
| MessageAgreement.ErrorTableMatchesHandlers | src/lib/error.ts:36-40 | PAYMENT_ID_REQUIRED, PAYMENT_NOT_FOUND and INTERNAL_SERVER_ERROR equal the get handler's literals; VALIDATION_FAILED is ValidationError's default |
| MessageAgreement.ErrorTableMatchesListHandler | src/lib/error.ts:38 | INVALID_CURRENCY_FORMAT is a proper prefix of the list handler's 400 message, not the message itself |
| MessageAgreement.ErrorsTableMatchesValidator | src/lib/errors.ts:39-46 | the amount entries, CURRENCY_REQUIRED, CURRENCY_MUST_BE_STRING and INVALID_INPUT_FORMAT equal the validator's literals |
| MessageAgreement.TablesAgreeOnSharedKeys | src/lib/errors.ts:35-49 | wherever the two tables share a key, they hold the same message |
| MessageAgreement.TablesDifferInKeys | src/lib/errors.ts:45-47 | only the first table has INVALID_CURRENCY_FORMAT and CURRENCY_INVALID_FORMAT; only the second has CURRENCY_INVALID and UNEXPECTED_FIELDS |
| MessageAgreement.ErrorsTableCurrencyInvalidNeverEmitted | src/lib/errors.ts:45 | the second table's CURRENCY_INVALID message is never among the validator's errors, for any input |
| MessageAgreement.ErrorsTableUnexpectedFieldsNeverEmitted | src/lib/errors.ts:47 | the second table's UNEXPECTED_FIELDS message is never among the validator's errors, for any input |
| GetPayment.Handler | src/getPayment.ts:5-24 | the status is always one of 200, 400, 404 and 500. A missing or empty id gets 400 "Payment ID is required" with no lookup. Otherwise there is exactly one lookup, with the path id. Absent or falsy → 404 "Payment not found"; found → 200 with the payment unchanged; rejection → 500 "Internal server error" |
| ListPayments.Handler | src/listPayments.ts:10-32 | the status is always one of 200, 400 and 500. A non-empty currency outside the allow-list gets 400 with no listing. Otherwise there is exactly one listing, with the query value unchanged (absent or empty included). Rejection → 500 "Internal server error"; success → 200 with `data` the listing unchanged and `count` its length |
| ListPayments.InvalidCurrencyMessagePrefix | src/listPayments.ts:16-18 | the 400 message begins with "Invalid currency format" |
| ListPayments.FiltersReportGivenCurrency | src/listPayments.ts:26 | on success, `filters` is exactly the one-key object `{currency: <value>}` when the currency is non-empty, and exactly `{}` otherwise |
| CreatePayment.BodyText | src/createPayment.ts:8 | a missing or empty body is read as '{}'; any other body is read unchanged |
| CreatePayment.NewPaymentShape | src/createPayment.ts:13-16 | the record is an object with no repeated key whose first key is `id`. `id` holds the generated id unless the input supplies its own; every other key holds the input's last value for it |
| CreatePayment.NewPaymentCopiesFields | src/createPayment.ts:13-16 | for an object input, every key other than `id` is copied unchanged |
| CreatePayment.NewPaymentCopiesIndices | src/createPayment.ts:13-16 | for an array input, the record holds each element under its decimal index key |
| JsValues.IndexEntriesDistinct | src/createPayment.ts:13-16 | spreading an array gives each index its own key: no two indices share a decimal spelling |
| CreatePayment.Handler | src/createPayment.ts:6-28 | the status is always 201 or 500. The store is called once, with the built record, exactly when parsing succeeds. 201 exactly when both parsing and storing succeed, with `payment` the stored record and `result` its `id`. Failure → 500 "Internal server error" |
| CreatePayment.CreatesWithoutValidating | src/createPayment.ts:6-28 | a body without an amount, which the validator rejects, is stored and answered 201 (never 422) |

## Left out

- The repository (src/lib/payments.ts) is not modelled. Each operation is a parameter of its handler. The handler sees only the outcome: a value, nothing, or a rejection. So the model promises no sorting of listings, no uniqueness or conflict check on creation, no `createdAt` timestamp, and nothing about the stored key name.
- A listing that resolves with no items is treated as the empty array. This is what the repository wrapper returns then (src/lib/payments.ts:38).
- `buildResponse` and `parseInput` come from a library that is not part of this model. `buildResponse` pairs a status with a body, without serialisation or headers. `parseInput` is a parameter that either yields a value or fails.
- `randomUUID` is replaced by an id passed in. `console.error` logging is not modelled.
- Async and promise machinery is modelled as settled outcome values.
- Floating-point arithmetic is not modelled. Numbers are only classified as finite, +Infinity, -Infinity or NaN; `-0` is `Finite(0)`.
- JavaScript's `Object.keys` lists integer-like keys first. The model keeps every key in insertion order.
- Property reads on arrays and strings always give `undefined`. The core only reads `amount`, `currency` and `id`, which no array or string owns, so index and `length` reads are not modelled.
- Strings are sequences of Unicode characters, not of UTF-16 code units. Spreading a string with characters outside the Basic Multilingual Plane therefore gives fewer index keys than JavaScript does: one per character instead of one per surrogate half.
- Symbol keys, inherited properties, functions, BigInt and cyclic values are not modelled.
- A real JavaScript object never repeats a key, but the pair sequence can. Property reads use the first occurrence of a key. The object-literal lemmas state distinctness where they need it.
- The JSON schema in lib/be-test-stack.ts (amount bounds 0.01–1000000, five currency codes, no additional properties) is not part of this model. API Gateway enforces it, not the core code.
- The handlers' catch blocks are modelled only for rejections of the repository and the parser. An exception thrown by `buildResponse` itself is not modelled.
