/** `validatePaymentInput`: a total classifier from any JavaScript value to a
    verdict `{isValid, errors}`. A value that is not a truthy object is
    rejected with one message and nothing else runs; otherwise the
    unexpected-fields rule, the amount rule and the currency rule each add at
    most one message, in that order. */
module Validation {
  import opened Wrappers
  import opened JsValues
  import Currencies

  datatype ValidationResult = ValidationResult(isValid: bool, errors: seq<string>)

  const InvalidInputFormat := "Invalid input format"
  const UnexpectedFieldsPrefix := "Unexpected fields: "
  const AmountRequired := "Amount is required"
  const AmountMustBeNumber := "Amount must be a number"
  const AmountMustBePositive := "Amount must be greater than 0"
  const AmountMustBeFinite := "Amount must be a finite number"
  const CurrencyRequired := "Currency is required"
  const CurrencyMustBeString := "Currency must be a string"
  const CurrencyInvalidFormat := "Currency must be a 3-letter uppercase code"

  const AllowedFields: seq<string> := ["amount", "currency"]

  /** The messages the amount rule can produce. */
  const AmountMessages: set<string> :=
    {AmountRequired, AmountMustBeNumber, AmountMustBePositive, AmountMustBeFinite}

  /** The messages the currency rule can produce. */
  const CurrencyMessages: set<string> :=
    {CurrencyRequired, CurrencyMustBeString, CurrencyInvalidFormat}

  /** `keys.filter(field => !allowedFields.includes(field))`. */
  function UnexpectedFields(keys: seq<string>): (r: seq<string>)
    ensures |r| <= |keys|
    ensures forall k :: k in r <==> k in keys && k !in AllowedFields
  {
    if keys == [] then []
    else if keys[0] in AllowedFields then UnexpectedFields(keys[1..])
    else [keys[0]] + UnexpectedFields(keys[1..])
  }

  /** The filter keeps the relative order of the keys: filtering a
      concatenation concatenates the filtered parts. */
  lemma {:induction false} UnexpectedFieldsAppend(a: seq<string>, b: seq<string>)
    ensures UnexpectedFields(a + b) == UnexpectedFields(a) + UnexpectedFields(b)
    decreases |a|
  {
    if a != [] {
      assert (a + b)[1..] == a[1..] + b;
      UnexpectedFieldsAppend(a[1..], b);
    } else {
      assert a + b == b;
    }
  }

  /** `parts.join(sep)`. */
  function Join(parts: seq<string>, sep: string): string
    decreases |parts|
  {
    if parts == [] then ""
    else if |parts| == 1 then parts[0]
    else parts[0] + sep + Join(parts[1..], sep)
  }

  /** The single message that lists every unexpected key. */
  function UnexpectedFieldsMessage(fields: seq<string>): string {
    UnexpectedFieldsPrefix + Join(fields, ", ")
  }

  /** True for the messages of the unexpected-fields rule. */
  predicate IsUnexpectedFieldsMessage(m: string) {
    |UnexpectedFieldsPrefix| <= |m| && m[..|UnexpectedFieldsPrefix|] == UnexpectedFieldsPrefix
  }

  /** The unexpected-fields rule: no message when every key is allowed,
      otherwise one message naming all the others in key order. */
  function UnexpectedFieldsError(keys: seq<string>): (r: Option<string>)
    ensures r.None? <==> forall k :: k in keys ==> k in AllowedFields
    ensures r.Some? ==> IsUnexpectedFieldsMessage(r.value)
  {
    var unexpected := UnexpectedFields(keys);
    if |unexpected| > 0 then
      assert unexpected[0] in unexpected;
      var m := UnexpectedFieldsMessage(unexpected);
      assert m[..|UnexpectedFieldsPrefix|] == UnexpectedFieldsPrefix;
      Some(m)
    else
      None
  }

  /** The amount rule: the first matching branch of an else-if chain. */
  function AmountError(amount: JsValue): (r: Option<string>)
    ensures r.None? <==> amount.Num? && amount.n.Finite? && amount.n.value > 0.0
    ensures r == Some(AmountRequired) <==> amount.Undefined? || amount.Null?
    ensures r == Some(AmountMustBeNumber) <==> !(amount.Undefined? || amount.Null? || amount.Num?)
    ensures r == Some(AmountMustBePositive) <==>
      amount.Num? && (amount.n.NegInf? || (amount.n.Finite? && amount.n.value <= 0.0))
    ensures r == Some(AmountMustBeFinite) <==> amount == Num(PosInf) || amount == Num(NaN)
  {
    if amount == Undefined || amount == Null then Some(AmountRequired)
    else if TypeOf(amount) != "number" then Some(AmountMustBeNumber)
    else if AtMostZero(amount.n) then Some(AmountMustBePositive)
    else if !IsFinite(amount.n) then Some(AmountMustBeFinite)
    else None
  }

  /** The currency rule: the first matching branch of an else-if chain. */
  function CurrencyError(currency: JsValue): (r: Option<string>)
    ensures r.None? <==> currency.Str? && Currencies.IsValidCurrency(currency.s)
    ensures r == Some(CurrencyRequired) <==> currency.Undefined? || currency.Null?
    ensures r == Some(CurrencyMustBeString) <==> !(currency.Undefined? || currency.Null? || currency.Str?)
    ensures r == Some(CurrencyInvalidFormat) <==> currency.Str? && !Currencies.IsValidCurrency(currency.s)
  {
    if currency == Undefined || currency == Null then Some(CurrencyRequired)
    else if TypeOf(currency) != "string" then Some(CurrencyMustBeString)
    else if !Currencies.IsValidCurrency(currency.s) then Some(CurrencyInvalidFormat)
    else None
  }

  /** The position a message takes in the verdict: the unexpected-fields
      message, then the amount message, then the currency message. */
  function Rank(m: string): nat {
    if IsUnexpectedFieldsMessage(m) then 0
    else if m in AmountMessages then 1
    else if m in CurrencyMessages then 2
    else 3
  }

  /** A message whose first letter is not the prefix's is not an
      unexpected-fields message. */
  lemma NotUnexpectedFieldsMessage(m: string)
    requires |m| > 0 && m[0] != UnexpectedFieldsPrefix[0]
    ensures !IsUnexpectedFieldsMessage(m)
  {
    if |UnexpectedFieldsPrefix| <= |m| {
      assert m[..|UnexpectedFieldsPrefix|][0] != UnexpectedFieldsPrefix[0];
    }
  }

  /** Each rule's messages sit at their own rank. */
  lemma MessageRanks()
    ensures forall m :: m in AmountMessages ==> Rank(m) == 1
    ensures forall m :: m in CurrencyMessages ==> Rank(m) == 2
    ensures Rank(InvalidInputFormat) == 3
  {
    NotUnexpectedFieldsMessage(AmountRequired);
    NotUnexpectedFieldsMessage(AmountMustBeNumber);
    NotUnexpectedFieldsMessage(AmountMustBePositive);
    NotUnexpectedFieldsMessage(AmountMustBeFinite);
    NotUnexpectedFieldsMessage(CurrencyRequired);
    NotUnexpectedFieldsMessage(CurrencyMustBeString);
    NotUnexpectedFieldsMessage(CurrencyInvalidFormat);
    NotUnexpectedFieldsMessage(InvalidInputFormat);
  }

  /** Independent statement of acceptance: an object with no key other than
      `amount` and `currency`, a positive finite amount and an allowed
      currency code. */
  predicate AcceptablePayment(input: JsValue) {
    && input.Obj?
    && (forall k :: k in OwnKeys(input) ==> k == "amount" || k == "currency")
    && Property(input, "amount").Num?
    && Property(input, "amount").n.Finite?
    && Property(input, "amount").n.value > 0.0
    && Property(input, "currency").Str?
    && Property(input, "currency").s in {"USD", "AUD"}
  }

  function ValidatePaymentInput(input: JsValue): (r: ValidationResult)
    ensures r.isValid <==> r.errors == []
    ensures |r.errors| <= 3
  {
    if !Truthy(input) || TypeOf(input) != "object" then
      ValidationResult(false, [InvalidInputFormat])
    else
      var errors := ObjectErrors(input);
      ValidationResult(|errors| == 0, errors)
  }

  /** The messages the three rules add for an input that passed the shape check. */
  function ObjectErrors(input: JsValue): (errors: seq<string>)
    ensures |errors| <= 3
  {
    UnexpectedFieldsError(OwnKeys(input)).ToSeq()
      + AmountError(Property(input, "amount")).ToSeq()
      + CurrencyError(Property(input, "currency")).ToSeq()
  }

  /** Null, undefined, booleans, numbers and strings get exactly the one
      shape message, and only they do. */
  lemma ShapeRejection(input: JsValue)
    ensures !(input.Obj? || input.Arr?) ==> ValidatePaymentInput(input) == ValidationResult(false, [InvalidInputFormat])
    ensures ValidatePaymentInput(input).errors == [InvalidInputFormat] <==> !(input.Obj? || input.Arr?)
  {
    TruthyObjectIsArrayOrObject(input);
    if input.Obj? || input.Arr? {
      ObjectErrorsRanked(input);
      MessageRanks();
      assert InvalidInputFormat !in ObjectErrors(input);
    }
  }

  /** Every message the three rules add ranks below the shape message. */
  lemma ObjectErrorsRanked(input: JsValue)
    ensures forall m :: m in ObjectErrors(input) ==> Rank(m) < 3
  {
    MessageRanks();
  }

  /** Every message comes from one of the rules. */
  lemma KnownMessages(input: JsValue)
    ensures forall m :: m in ValidatePaymentInput(input).errors ==>
      m == InvalidInputFormat || IsUnexpectedFieldsMessage(m) || m in AmountMessages || m in CurrencyMessages
  {
  }

  /** A message that is none of the rules' messages is never produced. */
  lemma NeverEmitted(m: string, input: JsValue)
    requires m != InvalidInputFormat && !IsUnexpectedFieldsMessage(m)
    requires m !in AmountMessages && m !in CurrencyMessages
    ensures m !in ValidatePaymentInput(input).errors
  {
    KnownMessages(input);
  }

  /** Messages appear in rule order, unexpected fields first, and no rule
      contributes twice. */
  lemma ErrorOrder(input: JsValue)
    ensures var errors := ValidatePaymentInput(input).errors;
      forall i, j :: 0 <= i < j < |errors| ==> Rank(errors[i]) < Rank(errors[j])
  {
    MessageRanks();
  }

  /** When some key is not allowed, the first message lists every such key
      in key order; otherwise no message is about unexpected fields. */
  lemma UnexpectedFieldsFirst(input: JsValue)
    requires input.Obj? || input.Arr?
    ensures var errors := ValidatePaymentInput(input).errors;
      var unexpected := UnexpectedFields(OwnKeys(input));
      && (unexpected != [] ==> |errors| > 0 && errors[0] == UnexpectedFieldsMessage(unexpected))
      && (unexpected == [] ==> forall m :: m in errors ==> !IsUnexpectedFieldsMessage(m))
  {
    TruthyObjectIsArrayOrObject(input);
    MessageRanks();
  }

  /** The amount rule adds exactly the message `AmountError` picks, and no
      other amount message. */
  lemma AmountContribution(input: JsValue, m: string)
    requires input.Obj? || input.Arr?
    requires m in AmountMessages
    ensures m in ValidatePaymentInput(input).errors <==> AmountError(Property(input, "amount")) == Some(m)
  {
    TruthyObjectIsArrayOrObject(input);
    MessageRanks();
  }

  /** The currency rule adds exactly the message `CurrencyError` picks, and
      no other currency message. */
  lemma CurrencyContribution(input: JsValue, m: string)
    requires input.Obj? || input.Arr?
    requires m in CurrencyMessages
    ensures m in ValidatePaymentInput(input).errors <==> CurrencyError(Property(input, "currency")) == Some(m)
  {
    TruthyObjectIsArrayOrObject(input);
    MessageRanks();
  }

  /** An input is accepted exactly when it is an acceptable payment. */
  lemma AcceptsExactly(input: JsValue)
    ensures ValidatePaymentInput(input).isValid <==> AcceptablePayment(input)
  {
    TruthyObjectIsArrayOrObject(input);
    if Property(input, "currency").Str? {
      Currencies.AllowListIsExact(Property(input, "currency").s);
    }
    if input.Obj? {
      var allowed := forall k :: k in OwnKeys(input) ==> k == "amount" || k == "currency";
      assert allowed <==> forall k :: k in OwnKeys(input) ==> k in AllowedFields;
    }
  }

  /** A payment object with the given amount and currency. */
  function PaymentObject(amount: JsValue, currency: JsValue): JsValue {
    Obj([("amount", amount), ("currency", currency)])
  }

  /** An object holding just an amount and a currency is judged by the
      amount and currency rules alone. */
  lemma PaymentObjectErrors(amount: JsValue, currency: JsValue)
    ensures ValidatePaymentInput(PaymentObject(amount, currency)).errors
      == AmountError(amount).ToSeq() + CurrencyError(currency).ToSeq()
  {
    var input := PaymentObject(amount, currency);
    assert OwnKeys(input) == ["amount", "currency"];
    assert UnexpectedFields(["currency"]) == [];
    assert Property(input, "amount") == amount;
    assert Property(input, "currency") == currency;
  }

  /** With an allowed currency, only the amount rule can report. */
  lemma AmountAloneReports(amount: JsValue, code: Currencies.Currency)
    ensures ValidatePaymentInput(PaymentObject(amount, Str(Currencies.Code(code)))).errors
      == AmountError(amount).ToSeq()
  {
    Currencies.ParseCode(code);
    PaymentObjectErrors(amount, Str(Currencies.Code(code)));
  }

  /** With a positive finite amount, only the currency rule can report, and
      a string currency gets at most the format message. */
  lemma CurrencyAloneReports(amount: real, currency: string)
    requires amount > 0.0
    ensures ValidatePaymentInput(PaymentObject(Num(Finite(amount)), Str(currency))).errors
      == if Currencies.IsValidCurrency(currency) then [] else [CurrencyInvalidFormat]
  {
    PaymentObjectErrors(Num(Finite(amount)), Str(currency));
  }

  /** The amount classes that are numbers but not positive finite ones each
      get one message: `NaN` and +Infinity the finiteness message only,
      -Infinity the positivity message only. */
  lemma NonFiniteAmounts()
    ensures ValidatePaymentInput(PaymentObject(Num(NaN), Str("USD"))).errors == [AmountMustBeFinite]
    ensures ValidatePaymentInput(PaymentObject(Num(PosInf), Str("USD"))).errors == [AmountMustBeFinite]
    ensures ValidatePaymentInput(PaymentObject(Num(NegInf), Str("USD"))).errors == [AmountMustBePositive]
    ensures ValidatePaymentInput(PaymentObject(Num(Finite(-100.0)), Str("USD"))).errors == [AmountMustBePositive]
  {
    AmountAloneReports(Num(NaN), Currencies.USD);
    AmountAloneReports(Num(PosInf), Currencies.USD);
    AmountAloneReports(Num(NegInf), Currencies.USD);
    AmountAloneReports(Num(Finite(-100.0)), Currencies.USD);
  }

  /** Both enum codes are accepted with a positive amount. */
  lemma AcceptedCodes()
    ensures ValidatePaymentInput(PaymentObject(Num(Finite(1000.0)), Str("USD"))) == ValidationResult(true, [])
    ensures ValidatePaymentInput(PaymentObject(Num(Finite(1000.0)), Str("AUD"))) == ValidationResult(true, [])
  {
    Currencies.AllowListIsExact("USD");
    Currencies.AllowListIsExact("AUD");
    CurrencyAloneReports(1000.0, "USD");
    CurrencyAloneReports(1000.0, "AUD");
  }

  /** The empty string, lower case and codes outside the enum get the
      format message, and only it. */
  lemma RejectedCurrencyStrings()
    ensures ValidatePaymentInput(PaymentObject(Num(Finite(1000.0)), Str(""))).errors == [CurrencyInvalidFormat]
    ensures ValidatePaymentInput(PaymentObject(Num(Finite(1000.0)), Str("usd"))).errors == [CurrencyInvalidFormat]
    ensures ValidatePaymentInput(PaymentObject(Num(Finite(1000.0)), Str("EUR"))).errors == [CurrencyInvalidFormat]
  {
    Currencies.RejectedCodes();
    CurrencyAloneReports(1000.0, "");
    CurrencyAloneReports(1000.0, "usd");
    CurrencyAloneReports(1000.0, "EUR");
  }

  /** A payment object with one more key, not an allowed one, is judged by
      all three rules, the extra key named first. */
  lemma ExtraKeyErrors(amount: JsValue, currency: JsValue, key: string, value: JsValue)
    requires key !in AllowedFields
    ensures ValidatePaymentInput(Obj(PaymentObject(amount, currency).fields + [(key, value)])).errors
      == [UnexpectedFieldsPrefix + key] + AmountError(amount).ToSeq() + CurrencyError(currency).ToSeq()
  {
    var input := Obj(PaymentObject(amount, currency).fields + [(key, value)]);
    assert OwnKeys(input) == ["amount", "currency", key];
    assert UnexpectedFields([key]) == [key];
    assert UnexpectedFields(["currency", key]) == [key];
    assert UnexpectedFields(OwnKeys(input)) == [key];
    assert Property(input, "amount") == amount;
    assert Property(input, "currency") == currency;
  }

  /** Every rule reports: an extra key, a string amount and a numeric
      currency give three messages in rule order. */
  lemma AllRulesReport()
    ensures ValidatePaymentInput(Obj([("amount", Str("x")), ("currency", NatNum(123)), ("extra", NatNum(1))])).errors
      == ["Unexpected fields: extra", AmountMustBeNumber, CurrencyMustBeString]
  {
    ExtraKeyErrors(Str("x"), NatNum(123), "extra", NatNum(1));
    AllRulesParts();
  }

  /** The concrete facts the example above rests on. */
  lemma AllRulesParts()
    ensures Obj([("amount", Str("x")), ("currency", NatNum(123)), ("extra", NatNum(1))])
      == Obj(PaymentObject(Str("x"), NatNum(123)).fields + [("extra", NatNum(1))])
    ensures [UnexpectedFieldsPrefix + "extra"] + AmountError(Str("x")).ToSeq() + CurrencyError(NatNum(123)).ToSeq()
      == ["Unexpected fields: extra", AmountMustBeNumber, CurrencyMustBeString]
  {
    assert AmountError(Str("x")).ToSeq() == [AmountMustBeNumber];
    assert CurrencyError(NatNum(123)).ToSeq() == [CurrencyMustBeString];
    assert UnexpectedFieldsPrefix + "extra" == "Unexpected fields: extra";
    assert PaymentObject(Str("x"), NatNum(123)).fields + [("extra", NatNum(1))]
      == [("amount", Str("x")), ("currency", NatNum(123)), ("extra", NatNum(1))];
  }
}
