/** The response classifier (browser/helpers/process_response.js): given the
    response of an HTTP exchange and what the caller expects of it, either
    hand back the parsed body or throw the `OPError` the exchange amounts to.
    The WWW-Authenticate parser, `JSON.parse` and the status-code table are
    helpers whose code is not part of this model; they are parameters. */
module ProcessResponse {
  import opened Js
  import opened Errors

  /** The collaborators of the classifier. `parseJson` returns `None` where
      `JSON.parse` throws; `parseChallenge` receives the `www-authenticate`
      header (`None` for `null`) and returns the challenge parameters. */
  datatype Helpers = Helpers(
    parseJson: string -> Option<JsValue>,
    parseChallenge: Option<string> -> map<string, JsValue>,
    statusCodes: map<int, string>)

  /** The options object: `{ statusCode = 200, body = true, bearer = false }`. */
  datatype Expect = Expect(statusCode: int := 200, body: bool := true, bearer: bool := false)

  /** `STATUS_CODES[code]` inside a template literal: a missing entry prints
      as "undefined". */
  function Reason(env: Helpers, code: int): string
  {
    if code in env.statusCodes then env.statusCodes[code] else "undefined"
  }

  /** The challenge parameters of the response's `www-authenticate` header. */
  function Challenge(env: Helpers, r: Response): map<string, JsValue>
  {
    env.parseChallenge(HeaderGet(r, "www-authenticate"))
  }

  /** `throwAuthenticateErrors(response)`: throws an OPError built from the
      challenge parameters when they carry a truthy `error`. */
  function ThrowAuthenticateErrors(env: Helpers, r: Response): (res: Result<()>)
    ensures res.Ok? <==> !Truthy(Field(Challenge(env, r), "error"))
    ensures res.Throw? ==> res.thrown == OP(NewOPError(Challenge(env, r), Some(r)))
    // the thrown error carries the challenge's own `error` code
    ensures res.Throw? ==> res.thrown.op.error == Field(Challenge(env, r), "error") && res.thrown.op.response == Some(r)
  {
    var params := Challenge(env, r);
    if Truthy(Field(params, "error")) then Throw(OP(NewOPError(params, Some(r)))) else Ok(())
  }

  /** The body `isStandardBodyError` inspects: a string body is parsed
      (`None` when parsing throws), any other body is taken as it is. */
  function JsonBody(env: Helpers, r: Response): Option<JsValue>
  {
    if r.parsedBody.Str? then env.parseJson(r.parsedBody.s) else Some(r.parsedBody)
  }

  /** `typeof jsonbody.error === 'string' && jsonbody.error.length`. Reading a
      property of `null` or `undefined` throws, and the catch turns that into
      `false` too, which is what `Get` yields for them. */
  predicate HasErrorCode(body: JsValue)
  {
    NonEmptyString(Get(body, "error"))
  }

  /** `isStandardBodyError(response)`: never throws. It answers whether the
      (parsed) body is a standard error object, and in that case the
      response comes back with `parsedBody` replaced by the parsed object. */
  function IsStandardBodyError(env: Helpers, r: Response): (res: (bool, Response))
    ensures res.0 <==> JsonBody(env, r).Some? && HasErrorCode(JsonBody(env, r).value)
    ensures res.0 ==> res.1 == r.(parsedBody := JsonBody(env, r).value) && res.1.parsedBody.Obj?
    ensures !res.0 ==> res.1 == r
  {
    match JsonBody(env, r)
    case None => (false, r)
    case Some(jsonbody) =>
      if HasErrorCode(jsonbody) then (true, r.(parsedBody := jsonbody)) else (false, r)
  }

  /** A body that cannot be parsed, or without a non-empty string `error`,
      is not a standard error, and the response is left as it was. */
  lemma NotStandardBodyError(env: Helpers, r: Response)
    requires || (r.parsedBody.Str? && env.parseJson(r.parsedBody.s).None?)
             || (!r.parsedBody.Obj? && !r.parsedBody.Str?)
             || (r.parsedBody.Obj? && !NonEmptyString(Field(r.parsedBody.fields, "error")))
    ensures IsStandardBodyError(env, r) == (false, r)
  {
  }

  /** Classifying the replaced response again finds the same error and
      changes nothing more: the replacement is the parsed object itself. */
  lemma IsStandardBodyErrorIdempotent(env: Helpers, r: Response)
    requires IsStandardBodyError(env, r).0
    ensures IsStandardBodyError(env, IsStandardBodyError(env, r).1) == (true, IsStandardBodyError(env, r).1)
  {
  }

  /** The `error` text of a status mismatch without a recognizable error. */
  function MismatchText(env: Helpers, opts: Expect, r: Response): string
  {
    "expected " + IntToString(opts.statusCode) + " " + Reason(env, opts.statusCode)
    + ", got: " + IntToString(r.status) + " " + Reason(env, r.status)
  }

  /** The `error` text of a matching status without the required body. */
  function NoBodyText(env: Helpers, opts: Expect): string
  {
    "expected " + IntToString(opts.statusCode) + " " + Reason(env, opts.statusCode)
    + " with body but no body was returned"
  }

  /** `processResponse(response, opts)` */
  function Process(env: Helpers, r: Response, opts: Expect): (res: Result<JsValue>)
    // the body is returned, unchanged, exactly when the status matches and a body is present or not required
    ensures res.Ok? <==> r.status == opts.statusCode && (!opts.body || Truthy(r.parsedBody))
    ensures res.Ok? ==> res.value == r.parsedBody
    // every failure is an OPError about this response
    ensures res.Throw? ==> res.thrown.OP? && res.thrown.op.response.Some?
    // a status mismatch: a bearer challenge error first ...
    ensures r.status != opts.statusCode && opts.bearer && ThrowAuthenticateErrors(env, r).Throw? ==>
              res == Throw(OP(NewOPError(Challenge(env, r), Some(r))))
    // ... then a standard error body, thrown with the replaced response ...
    ensures r.status != opts.statusCode && !(opts.bearer && ThrowAuthenticateErrors(env, r).Throw?)
            && IsStandardBodyError(env, r).0 ==>
              var r' := IsStandardBodyError(env, r).1;
              res == Throw(OP(NewOPError(r'.parsedBody.fields, Some(r'))))
    // ... and otherwise a generic mismatch error
    ensures r.status != opts.statusCode && !(opts.bearer && ThrowAuthenticateErrors(env, r).Throw?)
            && !IsStandardBodyError(env, r).0 ==>
              res == Throw(OP(NewOPError(map["error" := Str(MismatchText(env, opts, r))], Some(r))))
    // a matching status with a required body missing
    ensures r.status == opts.statusCode && opts.body && !Truthy(r.parsedBody) ==>
              res == Throw(OP(NewOPError(map["error" := Str(NoBodyText(env, opts))], Some(r))))
  {
    if r.status != opts.statusCode then
      if opts.bearer && ThrowAuthenticateErrors(env, r).Throw? then
        Throw(ThrowAuthenticateErrors(env, r).thrown)
      else
        var (isError, r') := IsStandardBodyError(env, r);
        if isError then Throw(OP(NewOPError(r'.parsedBody.fields, Some(r'))))
        else Throw(OP(NewOPError(map["error" := Str(MismatchText(env, opts, r))], Some(r))))
    else if opts.body && !Truthy(r.parsedBody) then
      Throw(OP(NewOPError(map["error" := Str(NoBodyText(env, opts))], Some(r))))
    else
      Ok(r.parsedBody)
  }

  /** The generic errors carry their text as both `error` and `message`. */
  lemma GenericErrorMessages(env: Helpers, r: Response, opts: Expect)
    ensures var res := Process(env, r, opts);
            r.status != opts.statusCode && !(opts.bearer && ThrowAuthenticateErrors(env, r).Throw?)
            && !IsStandardBodyError(env, r).0 ==>
              res.Throw? && res.thrown.op.message == MismatchText(env, opts, r)
              && res.thrown.op.error == Str(MismatchText(env, opts, r))
              && res.thrown.op.error_description == None
    ensures var res := Process(env, r, opts);
            r.status == opts.statusCode && opts.body && !Truthy(r.parsedBody) ==>
              res.Throw? && res.thrown.op.message == NoBodyText(env, opts)
              && res.thrown.op.error == Str(NoBodyText(env, opts))
  {
  }

  /** A standard error body becomes the OPError's fields: its message is the
      body's `error` (with the description appended when there is one). */
  lemma BodyErrorFields(env: Helpers, r: Response, opts: Expect, code: string)
    requires r.status != opts.statusCode && !opts.bearer
    requires r.parsedBody.Obj? && Field(r.parsedBody.fields, "error") == Str(code) && code != ""
    requires !Truthy(Field(r.parsedBody.fields, "error_description"))
    ensures Process(env, r, opts).Throw?
    ensures Process(env, r, opts).thrown.op.error == Str(code)
    ensures Process(env, r, opts).thrown.op.message == code
    ensures Process(env, r, opts).thrown.op.response == Some(r)
  {
  }

  /** A token endpoint's `400 {"error":"invalid_grant"}` answer, with the
      body still a string, is reported as `invalid_grant` when 200 was expected. */
  lemma InvalidGrantExample(env: Helpers, text: string)
    requires env.parseJson(text) == Some(Obj(map["error" := Str("invalid_grant")]))
    ensures var r := Response(400, map[], Str(text));
            var res := Process(env, r, Expect());
            res.Throw? && res.thrown.op.message == "invalid_grant"
            && res.thrown.op.response == Some(r.(parsedBody := Obj(map["error" := Str("invalid_grant")])))
  {
    var r := Response(400, map[], Str(text));
    assert JsonBody(env, r) == Some(Obj(map["error" := Str("invalid_grant")]));
    assert HasErrorCode(Obj(map["error" := Str("invalid_grant")]));
  }

  /** A 204 answer with `body: false` expected passes through, body and all. */
  lemma NoContentExample(env: Helpers, headers: map<string, string>, body: JsValue)
    ensures Process(env, Response(204, headers, body), Expect(statusCode := 204, body := false)) == Ok(body)
  {
  }

  /** `String(200)` and `String(500)`. */
  lemma DecimalCodes()
    ensures IntToString(200) == "200" && IntToString(500) == "500"
  {
    assert NatToString(2) == "2" && NatToString(20) == "20";
    assert NatToString(5) == "5" && NatToString(50) == "50";
  }

  /** The mismatch text for a 500 answer where 200 was expected. */
  lemma MismatchTextExample(env: Helpers, r: Response)
    requires Reason(env, 200) == "OK" && Reason(env, 500) == "Internal Server Error" && r.status == 500
    ensures MismatchText(env, Expect(), r) == "expected " + "200" + " " + "OK" + ", got: " + "500" + " " + "Internal Server Error"
  {
    DecimalCodes();
  }

  /** The message of a plain status mismatch, spelled out for a 500 answer
      to a request that expected 200. */
  lemma MismatchExample(env: Helpers, body: JsValue)
    requires env.statusCodes == map[200 := "OK", 500 := "Internal Server Error"]
    requires !IsStandardBodyError(env, Response(500, map[], body)).0
    ensures Process(env, Response(500, map[], body), Expect()).Throw?
    ensures Process(env, Response(500, map[], body), Expect()).thrown.op.message
            == "expected " + "200" + " " + "OK" + ", got: " + "500" + " " + "Internal Server Error"
  {
    var r := Response(500, map[], body);
    assert Reason(env, 200) == "OK" && Reason(env, 500) == "Internal Server Error";
    MismatchTextExample(env, r);
    GenericErrorMessages(env, r, Expect());
  }
}
