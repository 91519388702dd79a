/** How the two `ErrorMessages` tables relate to the literals the validator
    and the handlers actually emit. The validator and the handlers do not
    read either table; these lemmas record where they agree and where the
    second table has drifted. */
module MessageAgreement {
  import opened JsValues
  import Validation
  import ApiGateway
  import GetPayment
  import ListPayments
  import PaymentErrors
  import T1 = ErrorMessageTable
  import T2 = ErrorsMessageTable

  /** The validator-facing entries of the first table are the validator's literals. */
  lemma ErrorTableMatchesValidator()
    ensures T1.Messages["AMOUNT_REQUIRED"] == Validation.AmountRequired
    ensures T1.Messages["AMOUNT_MUST_BE_NUMBER"] == Validation.AmountMustBeNumber
    ensures T1.Messages["AMOUNT_MUST_BE_POSITIVE"] == Validation.AmountMustBePositive
    ensures T1.Messages["AMOUNT_MUST_BE_FINITE"] == Validation.AmountMustBeFinite
    ensures T1.Messages["CURRENCY_REQUIRED"] == Validation.CurrencyRequired
    ensures T1.Messages["CURRENCY_MUST_BE_STRING"] == Validation.CurrencyMustBeString
    ensures T1.Messages["CURRENCY_INVALID_FORMAT"] == Validation.CurrencyInvalidFormat
    ensures T1.Messages["INVALID_INPUT_FORMAT"] == Validation.InvalidInputFormat
  {
  }

  /** The handler-facing entries of the first table are the get handler's
      literals and ValidationError's default message. */
  lemma ErrorTableMatchesHandlers()
    ensures T1.Messages["PAYMENT_ID_REQUIRED"] == GetPayment.PaymentIdRequired
    ensures T1.Messages["PAYMENT_NOT_FOUND"] == GetPayment.PaymentNotFound
    ensures T1.Messages["INTERNAL_SERVER_ERROR"] == ApiGateway.InternalServerError
    ensures T1.Messages["VALIDATION_FAILED"] == PaymentErrors.DefaultValidationMessage
  {
  }

  /** The list handler's 400 message extends the first table's
      INVALID_CURRENCY_FORMAT entry with an example list. */
  lemma ErrorTableMatchesListHandler()
    ensures T1.Messages["INVALID_CURRENCY_FORMAT"] <= ListPayments.InvalidCurrencyFormat
    ensures T1.Messages["INVALID_CURRENCY_FORMAT"] != ListPayments.InvalidCurrencyFormat
  {
    var entry := "Invalid currency format. Currency must be a 3-letter uppercase code";
    assert T1.Messages["INVALID_CURRENCY_FORMAT"] == entry;
    assert entry + " (e.g., USD, EUR, GBP)" ==
      "Invalid currency format. Currency must be a 3-letter uppercase code (e.g., USD, EUR, GBP)";
  }

  /** The entries the second table shares with the validator agree with it. */
  lemma ErrorsTableMatchesValidator()
    ensures T2.Messages["AMOUNT_REQUIRED"] == Validation.AmountRequired
    ensures T2.Messages["AMOUNT_MUST_BE_NUMBER"] == Validation.AmountMustBeNumber
    ensures T2.Messages["AMOUNT_MUST_BE_POSITIVE"] == Validation.AmountMustBePositive
    ensures T2.Messages["AMOUNT_MUST_BE_FINITE"] == Validation.AmountMustBeFinite
    ensures T2.Messages["CURRENCY_REQUIRED"] == Validation.CurrencyRequired
    ensures T2.Messages["CURRENCY_MUST_BE_STRING"] == Validation.CurrencyMustBeString
    ensures T2.Messages["INVALID_INPUT_FORMAT"] == Validation.InvalidInputFormat
  {
  }

  /** The two tables agree wherever they share a key. */
  lemma TablesAgreeOnSharedKeys()
    ensures forall k :: k in T1.Messages && k in T2.Messages ==> T1.Messages[k] == T2.Messages[k]
  {
    var shared := {
      "PAYMENT_ID_REQUIRED", "PAYMENT_NOT_FOUND", "VALIDATION_FAILED", "INTERNAL_SERVER_ERROR",
      "AMOUNT_REQUIRED", "AMOUNT_MUST_BE_NUMBER", "AMOUNT_MUST_BE_POSITIVE", "AMOUNT_MUST_BE_FINITE",
      "CURRENCY_REQUIRED", "CURRENCY_MUST_BE_STRING", "INVALID_INPUT_FORMAT"};
    forall k | k in T1.Messages && k in T2.Messages
      ensures T1.Messages[k] == T2.Messages[k]
    {
      assert k in shared;
    }
  }

  /** Each table has two keys the other lacks. */
  lemma TablesDifferInKeys()
    ensures "INVALID_CURRENCY_FORMAT" in T1.Messages && "INVALID_CURRENCY_FORMAT" !in T2.Messages
    ensures "CURRENCY_INVALID_FORMAT" in T1.Messages && "CURRENCY_INVALID_FORMAT" !in T2.Messages
    ensures "CURRENCY_INVALID" in T2.Messages && "CURRENCY_INVALID" !in T1.Messages
    ensures "UNEXPECTED_FIELDS" in T2.Messages && "UNEXPECTED_FIELDS" !in T1.Messages
  {
  }

  /** The second table's currency message is none of the validator's messages. */
  lemma CurrencyInvalidIsForeign()
    ensures var m := T2.Messages["CURRENCY_INVALID"];
      && m != Validation.InvalidInputFormat && !Validation.IsUnexpectedFieldsMessage(m)
      && m !in Validation.AmountMessages && m !in Validation.CurrencyMessages
  {
    var m := "Currency must be one of: USD, AUD, EUR, GBP, SGD";
    assert T2.Messages["CURRENCY_INVALID"] == m;
    LongMessageIsForeign(m);
  }

  /** The literal of the second table's currency message is none of the
      validator's messages: it is longer than all of them and does not start
      like an unexpected-fields message. */
  lemma LongMessageIsForeign(m: string)
    requires m == "Currency must be one of: USD, AUD, EUR, GBP, SGD"
    ensures && m != Validation.InvalidInputFormat && !Validation.IsUnexpectedFieldsMessage(m)
      && m !in Validation.AmountMessages && m !in Validation.CurrencyMessages
  {
    LongMessageStart(m);
    Validation.NotUnexpectedFieldsMessage(m);
    assert |m| == 48;
  }

  /** The literal starts with the letter C. */
  lemma LongMessageStart(m: string)
    requires m == "Currency must be one of: USD, AUD, EUR, GBP, SGD"
    ensures |m| > 0 && m[0] == 'C'
  {
    var head := "Currency must be one";
    assert m == head + " of: USD, AUD, EUR, GBP, SGD";
    assert m[0] == head[0];
  }

  /** The second table's unexpected-fields message is none of the validator's messages. */
  lemma UnexpectedFieldsIsForeign()
    ensures var m := T2.Messages["UNEXPECTED_FIELDS"];
      && m != Validation.InvalidInputFormat && !Validation.IsUnexpectedFieldsMessage(m)
      && m !in Validation.AmountMessages && m !in Validation.CurrencyMessages
  {
    var m := "Unexpected fields provided";
    assert T2.Messages["UNEXPECTED_FIELDS"] == m;
    var n := |Validation.UnexpectedFieldsPrefix|;
    assert m[..n][17] == ' ' != Validation.UnexpectedFieldsPrefix[17];
    assert |m| == 26;
  }

  /** The second table's currency message is never produced by the
      validator, whatever the input. */
  lemma ErrorsTableCurrencyInvalidNeverEmitted(input: JsValue)
    ensures T2.Messages["CURRENCY_INVALID"] !in Validation.ValidatePaymentInput(input).errors
  {
    CurrencyInvalidIsForeign();
    Validation.NeverEmitted(T2.Messages["CURRENCY_INVALID"], input);
  }

  /** The second table's unexpected-fields message is never produced by the
      validator, whatever the input. */
  lemma ErrorsTableUnexpectedFieldsNeverEmitted(input: JsValue)
    ensures T2.Messages["UNEXPECTED_FIELDS"] !in Validation.ValidatePaymentInput(input).errors
  {
    UnexpectedFieldsIsForeign();
    Validation.NeverEmitted(T2.Messages["UNEXPECTED_FIELDS"], input);
  }
}
