/**
 * The JSON error bodies the back end sends and the front end decodes
 * (backend/utils/fieldError.js and the literal payloads of the controllers).
 *
 * A JSON object is modelled by the fields the application reads; a field that
 * is absent is `None`, and an absent or empty text inside an error item is "".
 */
module FieldErrors {
  import opened Wrappers

  /** One element of an `errors` array, as express-validator and `fieldError` write it. */
  datatype ErrorItem = ErrorItem(param: string, path: string, msg: string)

  /**
   * The `error` field of a payload: a plain string, or a serialised exception
   * object, of which only the keys of its `keyValue` object (if any) are read.
   */
  datatype ErrorValue = ErrText(text: string) | ErrObject(keyValue: Option<seq<string>>)

  /** A response body `{status, errors?, message?, error?, keyValue?}`. */
  datatype Payload = Payload(
    status: string,
    errors: Option<seq<ErrorItem>>,
    message: Option<string>,
    error: Option<ErrorValue>,
    keyValue: Option<seq<string>>)

  /** A rejected request: the HTTP status code and the body sent with it. */
  datatype Failure = Failure(code: int, body: Payload)

  /** `fieldError(param, msg)`: an error payload holding exactly one error, for one field. */
  function FieldError(param: string, msg: string): (p: Payload)
    ensures p.status == "error"
    ensures p.errors.Some? && |p.errors.value| == 1
    ensures p.errors.value[0].param == param && p.errors.value[0].msg == msg
    ensures p.errors.value[0].path == ""
    ensures p.message.None? && p.error.None? && p.keyValue.None?
  {
    ErrorsPayload([ErrorItem(param, "", msg)])
  }

  /** `{status: "error", errors}`. */
  function ErrorsPayload(items: seq<ErrorItem>): Payload
  {
    Payload("error", Some(items), None, None, None)
  }

  /** `{status: "error", message}`. */
  function MessagePayload(msg: string): Payload
  {
    Payload("error", None, Some(msg), None, None)
  }

  /** `{status: "error", message, error: err}` sent from a `catch` block. */
  function ExceptionPayload(msg: string, err: ErrorValue): Payload
  {
    Payload("error", None, Some(msg), Some(err), None)
  }

  /**
   * The serialised validation exception Mongoose raises when `save()` finds a
   * schema violation: an object without a `keyValue`.
   */
  const ValidationException: ErrorValue := ErrObject(None)
}
