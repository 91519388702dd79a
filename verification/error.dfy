/** The error classes `PaymentError`, `ValidationError`, `NotFoundError` and
    `BadRequestError`. The two library files that declare them declare the
    same four classes with the same constructors, so they are modelled once.
    Each subclass fixes the status code it passes to `PaymentError`; the base
    class defaults it to 500. An omitted (or `undefined`) constructor argument
    is `None`. */
module PaymentErrors {
  import opened Wrappers

  const DefaultStatusCode := 500
  const ValidationStatusCode := 422
  const NotFoundStatusCode := 404
  const BadRequestStatusCode := 400

  const DefaultValidationMessage := "Validation failed"
  const DefaultNotFoundMessage := "Resource not found"
  const DefaultBadRequestMessage := "Bad request"

  /** An instance of one of the four classes, tagged by its most derived class. */
  datatype PaymentError =
    | Payment(message: string, code: int)
    | Validation(message: string, errors: seq<string>)
    | NotFound(message: string)
    | BadRequest(message: string)
  {
    /** The `statusCode` field every instance carries. */
    function StatusCode(): int {
      match this
      case Payment(_, code) => code
      case Validation(_, _) => ValidationStatusCode
      case NotFound(_) => NotFoundStatusCode
      case BadRequest(_) => BadRequestStatusCode
    }

    /** The `name` field the constructor sets. */
    function Name(): string {
      match this
      case Payment(_, _) => "PaymentError"
      case Validation(_, _) => "ValidationError"
      case NotFound(_) => "NotFoundError"
      case BadRequest(_) => "BadRequestError"
    }
  }

  /** `new PaymentError(message, statusCode?)`. */
  function NewPaymentError(message: string, statusCode: Option<int>): (e: PaymentError)
    ensures e.message == message && e.Name() == "PaymentError"
    ensures statusCode.None? ==> e.StatusCode() == 500
    ensures statusCode.Some? ==> e.StatusCode() == statusCode.value
  {
    Payment(message, statusCode.GetOr(DefaultStatusCode))
  }

  /** `new ValidationError(message?, errors?)`. */
  function NewValidationError(message: Option<string>, errors: Option<seq<string>>): (e: PaymentError)
    ensures e.Validation? && e.StatusCode() == 422 && e.Name() == "ValidationError"
    ensures e.message == if message.Some? then message.value else "Validation failed"
    ensures e.errors == if errors.Some? then errors.value else []
  {
    Validation(message.GetOr(DefaultValidationMessage), errors.GetOr([]))
  }

  /** `new NotFoundError(message?)`. */
  function NewNotFoundError(message: Option<string>): (e: PaymentError)
    ensures e.NotFound? && e.StatusCode() == 404 && e.Name() == "NotFoundError"
    ensures e.message == if message.Some? then message.value else "Resource not found"
  {
    NotFound(message.GetOr(DefaultNotFoundMessage))
  }

  /** `new BadRequestError(message?)`. */
  function NewBadRequestError(message: Option<string>): (e: PaymentError)
    ensures e.BadRequest? && e.StatusCode() == 400 && e.Name() == "BadRequestError"
    ensures e.message == if message.Some? then message.value else "Bad request"
  {
    BadRequest(message.GetOr(DefaultBadRequestMessage))
  }

  /** The subclass an instance belongs to, recovered from its status code
      alone; `None` for a code no subclass uses. */
  function SubclassOfStatus(code: int): Option<string> {
    if code == 422 then Some("ValidationError")
    else if code == 404 then Some("NotFoundError")
    else if code == 400 then Some("BadRequestError")
    else None
  }

  /** The subclass codes are pairwise distinct and none is the base default,
      so the status code of a subclass instance identifies its class, and a
      base instance built with the default code is never mistaken for one. */
  lemma StatusIdentifiesSubclass(e: PaymentError)
    ensures !e.Payment? ==> SubclassOfStatus(e.StatusCode()) == Some(e.Name())
    ensures e.Payment? && e.code == DefaultStatusCode ==> SubclassOfStatus(e.StatusCode()).None?
  {
  }
}
