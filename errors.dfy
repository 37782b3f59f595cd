/** The client's two error families (lib/errors.js) and the exceptions the
    helpers throw. `OPError` reports an error that the authorization server
    returned; `RPError` a failure on the relying party's side. Both are built
    once by their constructor and never changed afterwards, so each is a
    datatype built by one function. */
module Errors {
  import opened Js

  /** An error reported by the OpenID Provider. `error` is always present
      (possibly `undefined`); each optional protocol field is present only
      when the payload held a truthy value for it. */
  datatype OPError = OPError(
    message: string,
    error: JsValue,
    error_description: Option<JsValue>,
    error_uri: Option<JsValue>,
    state: Option<JsValue>,
    scope: Option<JsValue>,
    session_state: Option<JsValue>,
    response: Option<Response>)
  {
    /** `this.name = this.constructor.name` */
    const name: string := "OPError"
  }

  /** An error of the Relying Party: a message, the diagnostic properties
      copied from the constructor's argument, and the response it concerns. */
  datatype RPError = RPError(message: string, extra: map<string, JsValue>, response: Option<Response>)
  {
    const name: string := "RPError"
  }

  /** The argument of `new RPError(...)`: a message string, or an object whose
      `response` property is given separately (`None` when it is falsy). */
  datatype RPErrorInit =
    | FromMessage(text: string)
    | FromProps(props: map<string, JsValue>, response: Option<Response>)

  /** Anything the modelled code throws. */
  datatype Thrown =
    | TypeError(message: string)
    | Error(message: string)
    | InvalidCharacterError(message: string)
    | OP(op: OPError)
    | RP(rp: RPError)
  {
    /** `err.message` */
    function Message(): string
    {
      match this
      case TypeError(m) => m
      case Error(m) => m
      case InvalidCharacterError(m) => m
      case OP(e) => e.message
      case RP(e) => e.message
    }
  }

  /** The outcome of a call that returns a value or throws. */
  datatype Result<+T> = Ok(value: T) | Throw(thrown: Thrown)

  /** The keys of the OPError payload that the constructor destructures. */
  const OPErrorKeys: set<string> :=
    {"error", "error_description", "error_uri", "state", "scope", "session_state"}

  /** `value && { key: value }` spread by `Object.assign`: kept only when truthy. */
  function WhenTruthy(v: JsValue): (r: Option<JsValue>)
    ensures r.Some? <==> Truthy(v)
    ensures r.Some? ==> r.value == v
  {
    if Truthy(v) then Some(v) else None
  }

  /** `new OPError(payload, response)`. */
  function NewOPError(payload: map<string, JsValue>, response: Option<Response>): (e: OPError)
    // the message is the error code, followed by the description in parentheses when there is one
    ensures !Truthy(Field(payload, "error_description")) ==>
              e.message == ArgumentText(Field(payload, "error"))
    ensures Truthy(Field(payload, "error_description")) ==>
              e.message == ToText(Field(payload, "error")) + " (" + ToText(Field(payload, "error_description")) + ")"
    // `error` is always carried; every other protocol field only when truthy
    ensures e.error == Field(payload, "error")
    ensures e.error_description.Some? <==> Truthy(Field(payload, "error_description"))
    ensures e.error_uri.Some? <==> Truthy(Field(payload, "error_uri"))
    ensures e.state.Some? <==> Truthy(Field(payload, "state"))
    ensures e.scope.Some? <==> Truthy(Field(payload, "scope"))
    ensures e.session_state.Some? <==> Truthy(Field(payload, "session_state"))
    ensures e.error_description.Some? ==> e.error_description.value == payload["error_description"]
    ensures e.error_uri.Some? ==> e.error_uri.value == payload["error_uri"]
    ensures e.state.Some? ==> e.state.value == payload["state"]
    ensures e.scope.Some? ==> e.scope.value == payload["scope"]
    ensures e.session_state.Some? ==> e.session_state.value == payload["session_state"]
    // the response is attached exactly when one is supplied
    ensures e.response == response
  {
    var error := Field(payload, "error");
    var description := Field(payload, "error_description");
    OPError(
      if !Truthy(description) then ArgumentText(error) else ToText(error) + " (" + ToText(description) + ")",
      error,
      WhenTruthy(description),
      WhenTruthy(Field(payload, "error_uri")),
      WhenTruthy(Field(payload, "state")),
      WhenTruthy(Field(payload, "scope")),
      WhenTruthy(Field(payload, "session_state")),
      response)
  }

  /** Payload keys other than the six protocol fields make no difference. */
  lemma OPErrorIgnoresOtherKeys(p: map<string, JsValue>, q: map<string, JsValue>, response: Option<Response>)
    requires forall k :: k in OPErrorKeys ==> Field(p, k) == Field(q, k)
    ensures NewOPError(p, response) == NewOPError(q, response)
  {
    assert "error" in OPErrorKeys && "error_description" in OPErrorKeys && "error_uri" in OPErrorKeys;
    assert "state" in OPErrorKeys && "scope" in OPErrorKeys && "session_state" in OPErrorKeys;
  }

  /** With string fields, the message is `error` or `error (error_description)`. */
  lemma OPErrorStringMessage(error: string, description: string, response: Option<Response>)
    ensures NewOPError(map["error" := Str(error)], response).message == error
    ensures description != "" ==>
              NewOPError(map["error" := Str(error), "error_description" := Str(description)], response).message
              == error + " (" + description + ")"
    ensures NewOPError(map["error" := Str(error), "error_description" := Str("")], response).error_description == None
  {
  }

  /** `new RPError(...)`. An object's `response` is attached separately; its
      other keys except `message` are copied onto the error (a `name` key is
      overwritten afterwards by the class name, so it does not survive). */
  function NewRPError(init: RPErrorInit): (e: RPError)
    ensures init.FromMessage? ==> e.message == init.text && e.extra == map[] && e.response == None
    ensures init.FromProps? ==> e.message == ArgumentText(Field(init.props, "message"))
    ensures init.FromProps? ==> e.response == init.response
    ensures init.FromProps? ==>
              forall k :: k in e.extra <==> k in init.props && k !in {"message", "response", "name"}
    ensures init.FromProps? ==> forall k :: k in e.extra ==> e.extra[k] == init.props[k]
  {
    match init
    case FromMessage(text) => RPError(text, map[], None)
    case FromProps(props, response) =>
      RPError(ArgumentText(Field(props, "message")), props - {"message", "response", "name"}, response)
  }
}
