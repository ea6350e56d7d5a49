/** The backend's final error middleware: it classifies a thrown error and
    answers with a status code and a JSON body whose `success` is false. */
module ErrorHandler {
  import opened Wrappers
  import Js

  /** The fields of a thrown error the handler reads. `errors` holds the
      messages of `err.errors` in property order and `keyValue` the
      properties of `err.keyValue`; None stands for an absent object. */
  datatype Error = Error(
    name: Js.JsValue,
    code: Js.JsValue,
    errors: Option<seq<Js.JsValue>>,
    keyValue: Option<seq<(string, Js.JsValue)>>,
    reason: Js.JsValue,
    message: Js.JsValue)

  /** The `errors`/`error` part of a response body. */
  datatype Detail =
    | FieldMessages(messages: seq<Js.JsValue>)
    | DuplicateKeys(keyValue: seq<(string, Js.JsValue)>)
    | ErrorText(text: Js.JsValue)

  datatype Response = Response(status: nat, success: bool, message: string, detail: Detail)

  const ValidationErrorName: string := "ValidationError"
  const DuplicateKeyCode: int := 11000
  const CallException: string := "CALL_EXCEPTION"
  const Development: string := "development"
  const GenericMessage: string := "Something went wrong"

  /** `${field}` for the first key; `undefined` when there is none. */
  function FirstKeyText(keyValue: seq<(string, Js.JsValue)>): string
  {
    if |keyValue| > 0 then keyValue[0].0 else "undefined"
  }

  /** The handler's answer, or None when reading the error throws
      (`Object.values` or `Object.keys` of an absent object). The checks
      apply in a fixed order: validation error, duplicate key, contract
      error, anything else. */
  function Handle(err: Error, nodeEnv: Option<string>): (r: Option<Response>)
    ensures err.name == Js.Str(ValidationErrorName) ==>
      (r.None? <==> err.errors.None?) &&
      (r.Some? ==> r.value == Response(400, false, "Validation Error", FieldMessages(err.errors.value)))
    ensures err.name != Js.Str(ValidationErrorName) && err.code == Js.Num(DuplicateKeyCode) ==>
      (r.None? <==> err.keyValue.None?) &&
      (r.Some? ==> r.value == Response(400, false, "Duplicate " + FirstKeyText(err.keyValue.value), DuplicateKeys(err.keyValue.value)))
    ensures err.name != Js.Str(ValidationErrorName) && err.code != Js.Num(DuplicateKeyCode) &&
            (err.code == Js.Str(CallException) || Js.Truthy(err.reason)) ==>
      r == Some(Response(400, false, "Contract Error",
                         ErrorText(if Js.Truthy(err.reason) then err.reason else err.message)))
    ensures err.name != Js.Str(ValidationErrorName) && err.code != Js.Num(DuplicateKeyCode) &&
            err.code != Js.Str(CallException) && !Js.Truthy(err.reason) ==>
      r == Some(Response(500, false, "Internal Server Error",
                         ErrorText(if nodeEnv == Some(Development) then err.message else Js.Str(GenericMessage))))
  {
    if err.name == Js.Str(ValidationErrorName) then
      match err.errors
      case None => None
      case Some(messages) => Some(Response(400, false, "Validation Error", FieldMessages(messages)))
    else if err.code == Js.Num(DuplicateKeyCode) then
      match err.keyValue
      case None => None
      case Some(kv) => Some(Response(400, false, "Duplicate " + FirstKeyText(kv), DuplicateKeys(kv)))
    else if err.code == Js.Str(CallException) || Js.Truthy(err.reason) then
      Some(Response(400, false, "Contract Error", ErrorText(if Js.Truthy(err.reason) then err.reason else err.message)))
    else
      Some(Response(500, false, "Internal Server Error",
                    ErrorText(if nodeEnv == Some(Development) then err.message else Js.Str(GenericMessage))))
  }

  /** Every answer reports failure; it is a 500 exactly when the error is
      none of the three recognised kinds, and a 400 otherwise. */
  lemma HandleStatus(err: Error, nodeEnv: Option<string>)
    requires Handle(err, nodeEnv).Some?
    ensures !Handle(err, nodeEnv).value.success
    ensures Handle(err, nodeEnv).value.status == 500 <==>
      err.name != Js.Str(ValidationErrorName) && err.code != Js.Num(DuplicateKeyCode) &&
      err.code != Js.Str(CallException) && !Js.Truthy(err.reason)
    ensures Handle(err, nodeEnv).value.status in {400, 500}
  {
  }

  /** Outside development the internal message never leaks: the default
      answer's text is the generic one whatever the error says. */
  lemma NoLeakOutsideDevelopment(err: Error, nodeEnv: Option<string>)
    requires nodeEnv != Some(Development)
    requires Handle(err, nodeEnv).Some? && Handle(err, nodeEnv).value.status == 500
    ensures Handle(err, nodeEnv).value.detail == ErrorText(Js.Str(GenericMessage))
  {
  }

  /** A validation error wins over every other marker the error carries:
      its answer depends only on the field messages. */
  lemma ValidationFirst(err: Error, other: Error, nodeEnv: Option<string>)
    requires err.name == Js.Str(ValidationErrorName) && other.name == err.name && other.errors == err.errors
    ensures Handle(err, nodeEnv) == Handle(other, nodeEnv)
  {
  }

  /** A duplicate-key error wins over a contract reason. */
  lemma DuplicateBeforeContract(err: Error, nodeEnv: Option<string>)
    requires err.name != Js.Str(ValidationErrorName) && err.code == Js.Num(DuplicateKeyCode)
    requires err.keyValue.Some? && Js.Truthy(err.reason)
    ensures Handle(err, nodeEnv).value.message != "Contract Error"
  {
    var kv := err.keyValue.value;
    assert Handle(err, nodeEnv).value.message == "Duplicate " + FirstKeyText(kv);
    assert ("Duplicate " + FirstKeyText(kv))[0] == 'D';
  }
}
