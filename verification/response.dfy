/** Classification of a public (GET) response: transport error, then BOM
    stripping and JSON decoding, then the exchange's `Message` field.
    `JSON.parse` is external and enters as the parameter `parse`. */
module Response {
  import opened Wrappers
  import opened Json
  import opened Errors

  /** The byte-order mark some responses start with. */
  const Bom: char := '\U{FEFF}'

  /** `JSON.parse`: `None` stands for the exception it throws. */
  type Parser = string -> Option<Value>

  predicate StartsWithBom(s: string) {
    |s| > 0 && s[0] == Bom
  }

  /** Removes one leading byte-order mark, if there is one. */
  function StripBom(body: string): (r: string)
    ensures StartsWithBom(body) ==> [Bom] + r == body
    ensures !StartsWithBom(body) ==> r == body
  {
    if StartsWithBom(body) then body[1..] else body
  }

  /** Stripping undoes prefixing one mark, whatever the body holds, so a
      body that starts with two marks keeps its second one. */
  lemma StripBomUndoesPrefix(body: string)
    ensures StripBom([Bom] + body) == body
  {
  }

  /** Stripping is idempotent exactly when the body does not start with
      two marks. */
  lemma StripBomIdempotentIff(body: string)
    ensures StripBom(StripBom(body)) == StripBom(body)
        <==> !(|body| >= 2 && body[0] == Bom && body[1] == Bom)
  {
    if |body| >= 2 && body[0] == Bom && body[1] == Bom {
      assert |StripBom(StripBom(body))| == |body| - 2;
    }
  }

  /** The exchange's error report carried by a decoded value that is not
      `null`: its `Message` property, when that is truthy. */
  function ExchangeMessage(data: Value): (m: Option<Value>)
    requires !data.Null?
    ensures m.Some? <==> data.Obj? && "Message" in data.fields && Truthy(data.fields["Message"])
    ensures m.Some? ==> m.value == data.fields["Message"]
  {
    match Property(data, "Message")
    case Some(msg) => if Truthy(msg) then Some(msg) else None
    case None => None
  }

  /** What the source's callback does: it is either called with a result or
      never called because `data.Message` threw on a `null` value. */
  datatype Completion = Callback(result: Result<Value, ApiError>) | UncaughtTypeError

  /** The response classifier as written: `data.Message` is read outside the
      `try`, so a body that decodes to `null` throws a TypeError that escapes
      the callback. */
  function ClassifyPublicAsWritten(transportError: Option<string>, body: string, parse: Parser): (c: Completion)
    ensures c.UncaughtTypeError? <==> transportError.None? && parse(StripBom(body)) == Some(Null)
  {
    if transportError.Some? then Callback(Failure(TransportFailure(transportError.value)))
    else
      var stripped := StripBom(body);
      match parse(stripped)
      case None => Callback(Failure(Unparseable(stripped)))
      case Some(data) =>
        if data.Null? then UncaughtTypeError
        else match ExchangeMessage(data)
          case Some(msg) => Callback(Failure(ExchangeError(msg)))
          case None => Callback(Success(data))
  }

  /** The response classifier with a `null` decoded value delivered as data
      (it carries no `Message`). First match wins: transport error, then
      parse failure of the stripped body, then a truthy `Message`, otherwise
      the decoded data. */
  function ClassifyPublic(transportError: Option<string>, body: string, parse: Parser): (r: Result<Value, ApiError>)
    ensures transportError.Some? ==> r == Failure(TransportFailure(transportError.value))
    ensures transportError.None? && parse(StripBom(body)).None?
      ==> r == Failure(Unparseable(StripBom(body)))
    ensures transportError.None? && parse(StripBom(body)).Some? && !parse(StripBom(body)).value.Null?
      && ExchangeMessage(parse(StripBom(body)).value).Some?
      ==> r == Failure(ExchangeError(ExchangeMessage(parse(StripBom(body)).value).value))
    ensures r.Success? <==>
      transportError.None? && parse(StripBom(body)).Some?
      && (parse(StripBom(body)).value.Null? || ExchangeMessage(parse(StripBom(body)).value).None?)
    ensures r.Success? ==> parse(StripBom(body)) == Some(r.value)
  {
    if transportError.Some? then Failure(TransportFailure(transportError.value))
    else
      var stripped := StripBom(body);
      match parse(stripped)
      case None => Failure(Unparseable(stripped))
      case Some(data) =>
        if data.Null? then Success(data)
        else match ExchangeMessage(data)
          case Some(msg) => Failure(ExchangeError(msg))
          case None => Success(data)
  }

  /** The two classifiers agree on every response except one whose body
      decodes to `null`. */
  lemma AsWrittenAgreesOffNull(transportError: Option<string>, body: string, parse: Parser)
    ensures !(transportError.None? && parse(StripBom(body)) == Some(Null))
      ==> ClassifyPublicAsWritten(transportError, body, parse) == Callback(ClassifyPublic(transportError, body, parse))
  {
  }

  /** The body `null` is valid JSON, yet as written it never reaches the
      callback. */
  lemma NullBodyEscapesCallback(parse: Parser)
    requires parse("null") == Some(Null)
    ensures ClassifyPublicAsWritten(None, "null", parse) == UncaughtTypeError
    ensures ClassifyPublic(None, "null", parse) == Success(Null)
  {
  }

  /** A leading byte-order mark never changes the classification. */
  lemma BomIsTransparent(transportError: Option<string>, body: string, parse: Parser)
    requires !StartsWithBom(body)
    ensures ClassifyPublic(transportError, [Bom] + body, parse) == ClassifyPublic(transportError, body, parse)
  {
    StripBomUndoesPrefix(body);
  }

  /** A BOM-prefixed object decodes to that object. */
  lemma BomPrefixedObject(parse: Parser)
    requires parse("{\"A\":1}") == Some(Obj(map["A" := Num(1.0)]))
    ensures ClassifyPublic(None, "\U{FEFF}{\"A\":1}", parse) == Success(Obj(map["A" := Num(1.0)]))
  {
    assert StripBom("\U{FEFF}{\"A\":1}") == "{\"A\":1}";
  }

  /** An exchange message in an otherwise successful response is an error. */
  lemma MessageIsExchangeError(parse: Parser)
    requires parse("{\"Message\":\"Invalid nonce\"}") == Some(Obj(map["Message" := Str("Invalid nonce")]))
    ensures ClassifyPublic(None, "{\"Message\":\"Invalid nonce\"}", parse)
         == Failure(ExchangeError(Str("Invalid nonce")))
  {
    assert !StartsWithBom("{\"Message\":\"Invalid nonce\"}");
  }

  /** The checks the private-request callback makes before it parses the
      body: a transport error first, then a truthy `body.Message`. `None`
      means it goes on to parse the body. */
  function PrivateResponseHead(transportError: Option<string>, bodyMessage: Option<Value>): (e: Option<ApiError>)
    ensures transportError.Some? ==> e == Some(TransportFailure(transportError.value))
    ensures transportError.None? ==> (e.Some? <==> bodyMessage.Some? && Truthy(bodyMessage.value))
    ensures transportError.None? && e.Some? ==> e.value == ExchangeError(bodyMessage.value)
  {
    if transportError.Some? then Some(TransportFailure(transportError.value))
    else if bodyMessage.Some? && Truthy(bodyMessage.value) then Some(ExchangeError(bodyMessage.value))
    else None
  }
}
