/** The `Currency` enum and its membership test `isValidCurrency`, which both
    the validator and the list handler use: a string is a currency exactly
    when it equals one of the enum's values, case-sensitively. */
module Currencies {
  import opened Wrappers

  datatype Currency = USD | AUD

  /** The string value of each enum member. */
  function Code(c: Currency): string {
    match c
    case USD => "USD"
    case AUD => "AUD"
  }

  /** `Object.values(Currency)`, in declaration order. */
  const AllowList: seq<string> := [Code(USD), Code(AUD)]

  /** `Object.values(Currency).includes(value)`: exact string equality. */
  predicate IsValidCurrency(value: string) {
    value in AllowList
  }

  /** The enum member a string names, if it names one. */
  function Parse(value: string): (r: Option<Currency>)
    ensures r.Some? <==> IsValidCurrency(value)
    ensures r.Some? ==> Code(r.value) == value
  {
    if value == Code(USD) then Some(USD)
    else if value == Code(AUD) then Some(AUD)
    else None
  }

  /** Every enum member's code is accepted and names that member again. */
  lemma ParseCode(c: Currency)
    ensures IsValidCurrency(Code(c))
    ensures Parse(Code(c)) == Some(c)
  {
  }

  /** The allow-list is exactly the two literal codes "USD" and "AUD". */
  lemma AllowListIsExact(value: string)
    ensures IsValidCurrency(value) <==> value == "USD" || value == "AUD"
  {
  }

  /** Membership is an exact match: lower case, other real currencies and
      the empty string are all rejected. */
  lemma RejectedCodes()
    ensures !IsValidCurrency("usd") && !IsValidCurrency("aud")
    ensures !IsValidCurrency("EUR") && !IsValidCurrency("GBP") && !IsValidCurrency("SGD")
    ensures !IsValidCurrency("")
  {
  }
}
