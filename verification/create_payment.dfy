/** The create-payment handler: parses the body (`'{}'` when there is none),
    builds `{ id: <fresh id>, ...input }`, hands it to the repository and
    answers 201 with the id and the payment, or 500 when parsing or storing
    fails. It does not validate the input. The parser, the fresh id and the
    store are parameters; `Run.calls` lists the records handed to the store. */
module CreatePayment {
  import opened Wrappers
  import opened JsValues
  import opened ApiGateway
  import Validation

  /** `event.body || '{}'`. */
  function BodyText(body: Option<string>): (text: string)
    ensures text != ""
    ensures Given(body) ==> text == body.value
    ensures !Given(body) ==> text == "{}"
  {
    if body.Some? && Truthy(Str(body.value)) then body.value else "{}"
  }

  /** The object literal `{ id: paymentId, ...input }`. */
  function NewPayment(paymentId: string, input: JsValue): JsValue {
    Obj(Assign([], [("id", Str(paymentId))] + Spread(input)))
  }

  /** The record is a well-formed object whose first key is `id`, holding
      the generated id unless the input supplies its own `id`; every other
      key holds the input's last value for it. */
  lemma NewPaymentShape(paymentId: string, input: JsValue)
    ensures var p := NewPayment(paymentId, input);
      && p.Obj?
      && DistinctKeys(p.fields)
      && |p.fields| > 0 && p.fields[0].0 == "id"
      && Property(p, "id") == LastValue(Spread(input), "id").GetOr(Str(paymentId))
      && forall k :: k != "id" ==> Lookup(p.fields, k) == LastValue(Spread(input), k)
  {
    var entries := [("id", Str(paymentId))] + Spread(input);
    var first := SetField([], "id", Str(paymentId));
    assert Assign([], entries) == Assign(first, Spread(input));
    AssignDistinct(first, Spread(input));
    AssignKeepsPrefix(first, Spread(input));
    forall k
      ensures Lookup(Assign([], entries), k) ==
        if LastValue(Spread(input), k).Some? then LastValue(Spread(input), k) else Lookup(first, k)
    {
      AssignLookup(first, Spread(input), k);
    }
  }

  /** For an object input, every field other than `id` is copied unchanged. */
  lemma NewPaymentCopiesFields(paymentId: string, input: JsValue, k: string)
    requires input.Obj? && DistinctKeys(input.fields)
    requires k != "id"
    ensures Property(NewPayment(paymentId, input), k) == Property(input, k)
  {
    NewPaymentShape(paymentId, input);
    LastValueOfDistinct(input.fields, k);
  }

  /** For an array input, the record holds each element under its index key. */
  lemma NewPaymentCopiesIndices(paymentId: string, items: seq<JsValue>, i: nat)
    requires i < |items|
    ensures Lookup(NewPayment(paymentId, Arr(items)).fields, NatToString(i)) == Some(items[i])
  {
    var key := NatToString(i);
    assert key[0] != "id"[0];
    NewPaymentShape(paymentId, Arr(items));
    IndexEntriesDistinct(items);
    LastValueOfDistinct(IndexEntries(items), key);
    assert IndexEntries(items)[i] == (key, items[i]);
    assert Lookup(IndexEntries(items)[i..], key) == Some(items[i]);
  }

  function Handler(body: Option<string>, parseInput: string -> Option<JsValue>, paymentId: string, repo: JsValue -> RepoResult<()>): (run: Run<JsValue>)
    ensures run.response.statusCode in {201, 500}
    // The store is asked once, with the built record, exactly when parsing succeeds.
    ensures parseInput(BodyText(body)).None? ==> run.calls == []
    ensures parseInput(BodyText(body)).Some? ==>
      run.calls == [NewPayment(paymentId, parseInput(BodyText(body)).value)]
    ensures run.response.statusCode == 201 <==>
      parseInput(BodyText(body)).Some? && !repo(run.calls[0]).Failure?
    ensures run.response.statusCode == 201 ==>
      && Property(run.response.body, "payment") == run.calls[0]
      && Property(run.response.body, "result") == Property(run.calls[0], "id")
    ensures run.response.statusCode == 500 ==> run.response.body == ErrorBody("Internal server error")
  {
    match parseInput(BodyText(body))
    case None => Run(BuildResponse(500, ErrorBody(InternalServerError)), [])
    case Some(input) =>
      var payment := NewPayment(paymentId, input);
      match repo(payment)
      case Failure => Run(BuildResponse(500, ErrorBody(InternalServerError)), [payment])
      case _ =>
        Run(BuildResponse(201, Obj([("result", Property(payment, "id")), ("payment", payment)])), [payment])
  }

  /** The handler stores and confirms input the validator rejects: a body
      without an amount is answered 201, not 422. */
  lemma CreatesWithoutValidating(parseInput: string -> Option<JsValue>, paymentId: string, repo: JsValue -> RepoResult<()>)
    requires parseInput("{\"currency\":\"USD\"}") == Some(Obj([("currency", Str("USD"))]))
    requires forall p :: repo(p) == Ok(())
    ensures !Validation.ValidatePaymentInput(Obj([("currency", Str("USD"))])).isValid
    ensures Handler(Some("{\"currency\":\"USD\"}"), parseInput, paymentId, repo).response.statusCode == 201
  {
    Validation.AcceptsExactly(Obj([("currency", Str("USD"))]));
  }
}
