/** The get-payment handler: reads the `id` path parameter, looks the payment
    up and answers 200 with it, 400 without an id, 404 when nothing (or a
    falsy value) comes back, and 500 when the lookup rejects. The lookup is
    the parameter `repo`; `Run.calls` lists the ids it was asked for. */
module GetPayment {
  import opened Wrappers
  import opened JsValues
  import opened ApiGateway

  const PaymentIdRequired := "Payment ID is required"
  const PaymentNotFound := "Payment not found"

  function Handler(pathParameters: Option<map<string, string>>, repo: string -> RepoResult<JsValue>): (run: Run<string>)
    ensures run.response.statusCode in {200, 400, 404, 500}
    // A missing or empty id is answered without a lookup.
    ensures run.response.statusCode == 400 <==> !Given(Param(pathParameters, "id"))
    ensures run.response.statusCode == 400 ==>
      run.calls == [] && run.response.body == ErrorBody("Payment ID is required")
    // Otherwise exactly one lookup, with exactly the path id.
    ensures Given(Param(pathParameters, "id")) ==> run.calls == [Param(pathParameters, "id").value]
    ensures run.response.statusCode == 404 <==>
      && Given(Param(pathParameters, "id"))
      && var found := repo(Param(pathParameters, "id").value);
         found.Absent? || (found.Ok? && !Truthy(found.value))
    ensures run.response.statusCode == 404 ==> run.response.body == ErrorBody("Payment not found")
    ensures run.response.statusCode == 200 <==>
      && Given(Param(pathParameters, "id"))
      && var found := repo(Param(pathParameters, "id").value);
         found.Ok? && Truthy(found.value)
    ensures run.response.statusCode == 200 ==> run.response.body == repo(run.calls[0]).value
    ensures run.response.statusCode == 500 <==>
      Given(Param(pathParameters, "id")) && repo(Param(pathParameters, "id").value).Failure?
    ensures run.response.statusCode == 500 ==> run.response.body == ErrorBody("Internal server error")
  {
    var paymentId := Param(pathParameters, "id");
    if !Truthy(if paymentId.Some? then Str(paymentId.value) else Undefined) then
      Run(BuildResponse(400, ErrorBody(PaymentIdRequired)), [])
    else
      match repo(paymentId.value)
      case Failure => Run(BuildResponse(500, ErrorBody(InternalServerError)), [paymentId.value])
      case Absent => Run(BuildResponse(404, ErrorBody(PaymentNotFound)), [paymentId.value])
      case Ok(payment) =>
        if !Truthy(payment) then Run(BuildResponse(404, ErrorBody(PaymentNotFound)), [paymentId.value])
        else Run(BuildResponse(200, payment), [paymentId.value])
  }
}
