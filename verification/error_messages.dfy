/** The `ErrorMessages` constant of src/lib/error.ts, keyed by its property names. */
module ErrorMessageTable {
  const Messages: map<string, string> := map[
    "PAYMENT_ID_REQUIRED" := "Payment ID is required",
    "PAYMENT_NOT_FOUND" := "Payment not found",
    "INVALID_CURRENCY_FORMAT" := "Invalid currency format. Currency must be a 3-letter uppercase code",
    "VALIDATION_FAILED" := "Validation failed",
    "INTERNAL_SERVER_ERROR" := "Internal server error",
    "AMOUNT_REQUIRED" := "Amount is required",
    "AMOUNT_MUST_BE_NUMBER" := "Amount must be a number",
    "AMOUNT_MUST_BE_POSITIVE" := "Amount must be greater than 0",
    "AMOUNT_MUST_BE_FINITE" := "Amount must be a finite number",
    "CURRENCY_REQUIRED" := "Currency is required",
    "CURRENCY_MUST_BE_STRING" := "Currency must be a string",
    "CURRENCY_INVALID_FORMAT" := "Currency must be a 3-letter uppercase code",
    "INVALID_INPUT_FORMAT" := "Invalid input format"
  ]
}

/** The `ErrorMessages` constant of src/lib/errors.ts, a second table with
    partly different keys and wording. */
module ErrorsMessageTable {
  const Messages: map<string, string> := map[
    "PAYMENT_ID_REQUIRED" := "Payment ID is required",
    "PAYMENT_NOT_FOUND" := "Payment not found",
    "VALIDATION_FAILED" := "Validation failed",
    "AMOUNT_REQUIRED" := "Amount is required",
    "AMOUNT_MUST_BE_NUMBER" := "Amount must be a number",
    "AMOUNT_MUST_BE_POSITIVE" := "Amount must be greater than 0",
    "AMOUNT_MUST_BE_FINITE" := "Amount must be a finite number",
    "CURRENCY_REQUIRED" := "Currency is required",
    "CURRENCY_MUST_BE_STRING" := "Currency must be a string",
    "CURRENCY_INVALID" := "Currency must be one of: USD, AUD, EUR, GBP, SGD",
    "INVALID_INPUT_FORMAT" := "Invalid input format",
    "UNEXPECTED_FIELDS" := "Unexpected fields provided",
    "INTERNAL_SERVER_ERROR" := "Internal server error"
  ]
}
