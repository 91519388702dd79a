/** The list-payments handler: an optional `currency` query parameter is
    checked against the allow-list when it is non-empty, then the listing is
    requested with the parameter exactly as received and returned as
    `{data, count, filters}`. The listing is the parameter `repo`;
    `Run.calls` lists the filters it was asked for (`None` is `undefined`). */
module ListPayments {
  import opened Wrappers
  import opened JsValues
  import opened ApiGateway
  import Currencies
  import Strings

  const InvalidCurrencyFormat :=
    "Invalid currency format. Currency must be a 3-letter uppercase code (e.g., USD, EUR, GBP)"

  /** The payments of a settled listing: a listing that resolved with no
      items is an empty array, as the repository wrapper returns `[]` then. */
  function Items(result: RepoResult<seq<JsValue>>): seq<JsValue> {
    if result.Ok? then result.value else []
  }

  /** `filters: currency ? { currency } : {}`. */
  function Filters(currency: Option<string>): JsValue {
    if Given(currency) then Obj([("currency", Str(currency.value))]) else Obj([])
  }

  /** The success body `{ data, count, filters }`. */
  function ListBody(payments: seq<JsValue>, currency: Option<string>): JsValue {
    Obj([("data", Arr(payments)), ("count", NatNum(|payments|)), ("filters", Filters(currency))])
  }

  function Handler(queryStringParameters: Option<map<string, string>>, repo: Option<string> -> RepoResult<seq<JsValue>>): (run: Run<Option<string>>)
    ensures run.response.statusCode in {200, 400, 500}
    // A non-empty currency outside the allow-list is refused without a listing.
    ensures var currency := Param(queryStringParameters, "currency");
      run.response.statusCode == 400 <==> Given(currency) && !Currencies.IsValidCurrency(currency.value)
    ensures run.response.statusCode == 400 ==>
      && run.calls == []
      && run.response.body == ErrorBody(InvalidCurrencyFormat)
    // Otherwise one listing, with the parameter unchanged (even when empty or absent).
    ensures run.response.statusCode != 400 ==> run.calls == [Param(queryStringParameters, "currency")]
    ensures run.response.statusCode == 500 <==>
      run.response.statusCode != 400 && repo(Param(queryStringParameters, "currency")).Failure?
    ensures run.response.statusCode == 500 ==> run.response.body == ErrorBody("Internal server error")
    ensures run.response.statusCode == 200 ==>
      var payments := Items(repo(run.calls[0]));
      && Property(run.response.body, "data") == Arr(payments)
      && Property(run.response.body, "count") == Num(Finite(|payments| as real))
  {
    var currency := Param(queryStringParameters, "currency");
    if Truthy(if currency.Some? then Str(currency.value) else Undefined)
       && !Currencies.IsValidCurrency(currency.value) then
      Run(BuildResponse(400, ErrorBody(InvalidCurrencyFormat)), [])
    else
      match repo(currency)
      case Failure => Run(BuildResponse(500, ErrorBody(InternalServerError)), [currency])
      case _ => Run(BuildResponse(200, ListBody(Items(repo(currency)), currency)), [currency])
  }

  /** The 400 message begins with "Invalid currency format". */
  lemma InvalidCurrencyMessagePrefix()
    ensures "Invalid currency format" <= InvalidCurrencyFormat
  {
    var a := "Invalid currency format";
    var b := "Invalid currency format. Currency must";
    var c := "Invalid currency format. Currency must be a 3-letter uppercase code";
    Strings.PrefixOfAppend(c, " (e.g., USD, EUR, GBP)");
    Strings.PrefixOfAppend(b, " be a 3-letter uppercase code");
    Strings.PrefixOfAppend(a, ". Currency must");
    Strings.PrefixTransitive(b, c, InvalidCurrencyFormat);
    Strings.PrefixTransitive(a, b, InvalidCurrencyFormat);
  }

  /** The `filters` entry names the currency exactly when it is non-empty: an
      empty currency is neither validated nor reported. */
  lemma FiltersReportGivenCurrency(queryStringParameters: Option<map<string, string>>, repo: Option<string> -> RepoResult<seq<JsValue>>)
    requires Handler(queryStringParameters, repo).response.statusCode == 200
    ensures var currency := Param(queryStringParameters, "currency");
      var filters := Property(Handler(queryStringParameters, repo).response.body, "filters");
      filters == if Given(currency) then Obj([("currency", Str(currency.value))]) else Obj([])
  {
    var currency := Param(queryStringParameters, "currency");
    var body := ListBody(Items(repo(currency)), currency);
    assert Handler(queryStringParameters, repo).response.body == body;
    assert Lookup(body.fields[2..], "filters") == Some(Filters(currency));
    assert Lookup(body.fields[1..], "filters") == Some(Filters(currency));
  }
}
