/**
 * 9cal/app.py: the WSGI application of the 9cal package. It reads and
 * decodes the body first, then looks the upper-cased method up in the
 * requests table; __call__ sets Content-Length on the triple.
 */
module NinecalApp {
  import opened Wrappers
  import opened Text
  import opened Ical
  import opened XmlUtils
  import opened Wsgi
  import opened NinecalRequests

  /** int(environ['CONTENT_LENGTH']): the field must be a number; an empty one is an error. */
  function Content(env: Environ, decode: (string, seq<byte>) -> Decoding): Result<string, BodyError> {
    match ParseInt(env.contentLength)
    case None => Failure(BadLength(env.contentLength))
    case Some(n) => FirstDecode(decode, Candidates(env.contentType), Read(env.input, n))
  }

  /** get_content: read CONTENT_LENGTH bytes and decode them with the first charset that accepts them. */
  method GetContent(env: Environ, decode: (string, seq<byte>) -> Decoding) returns (r: Result<string, BodyError>)
    ensures r == Content(env, decode)
  {
    var n := ParseInt(env.contentLength);
    if n.None? {
      return Failure(BadLength(env.contentLength));
    }
    r := ReadBody(env, n.value, decode);
  }

  /** Exactly CONTENT_LENGTH bytes (or all there are) are decoded, with the declared charset first. */
  lemma ContentReadsLength(env: Environ, decode: (string, seq<byte>) -> Decoding, n: nat)
    requires env.contentLength == IntToString(n)
    ensures var bytes := Read(env.input, n);
      && |bytes| == (if n < |env.input| then n else |env.input|)
      && Content(env, decode) == FirstDecode(decode, Candidates(env.contentType), bytes)
  {
    IntToStringRoundTrip(n);
  }

  /** Unlike cal9, an empty CONTENT_LENGTH is not read as 0. */
  lemma EmptyLengthRejected(env: Environ, decode: (string, seq<byte>) -> Decoding)
    requires env.contentLength == ""
    ensures Content(env, decode) == Failure(BadLength(""))
  {
  }

  /** Why a request fails: the body cannot be obtained, or the handler raises. */
  datatype AppError = BadBody(body: BodyError) | HandlerFailed(handler: MkError)

  /** The calls the application makes that are not in this model. */
  datatype World = World(decode: (string, seq<byte>) -> Decoding, parse: string -> Option<Element>,
                         fromIcal: Option<string> -> Option<Component>)

  function NotImplementedMessage(request: string): string {
    "Request " + request + " not implemented\n"
  }

  /** The outcome of handle_request. */
  function HandleRequestOf(env: Environ, w: World): Result<Reply, AppError> {
    var request := Upper(env.requestMethod);
    match Content(env, w.decode)
    case Failure(e) => Failure(BadBody(e))
    case Success(content) =>
      if request in Requests then
        match Run(Requests[request], content, w.parse, w.fromIcal)
        case Failure(e) => Failure(HandlerFailed(e))
        case Success(c) => Success(c.reply)
      else Success(Reply(500, map[], [NotImplementedMessage(request)]))
  }

  /** handle_request: upper-case the method, read the body, dispatch through the table. */
  method HandleRequest(env: Environ, w: World) returns (r: Result<Reply, AppError>)
    ensures r == HandleRequestOf(env, w)
  {
    var request := Upper(env.requestMethod);
    var content := GetContent(env, w.decode);
    if content.Failure? {
      return Failure(BadBody(content.error));
    }
    if request in Requests {
      var out: Result<Created, MkError>;
      match Requests[request] {
        case OptionsRequest =>
          out := Success(Created(OptionsReply(), None));
        case MkcalendarRequest =>
          out := MkCalendar(content.value, w.parse, w.fromIcal);
      }
      if out.Failure? {
        return Failure(HandlerFailed(out.error));
      }
      return Success(out.value.reply);
    }
    return Success(Reply(500, map[], [NotImplementedMessage(request)]));
  }

  /** A method of the table, in any case, gets exactly its handler's triple. */
  lemma KnownMethod(env: Environ, w: World, content: string)
    requires Content(env, w.decode) == Success(content)
    requires Upper(env.requestMethod) in Requests
    ensures var out := Run(Requests[Upper(env.requestMethod)], content, w.parse, w.fromIcal);
      && (out.Success? ==> HandleRequestOf(env, w) == Success(out.value.reply))
      && (out.Failure? ==> HandleRequestOf(env, w) == Failure(HandlerFailed(out.error)))
  {
  }

  /** Any other method is answered 500, no headers, one chunk naming the upper-cased method. */
  lemma UnknownMethod(env: Environ, w: World)
    requires Content(env, w.decode).Success?
    requires Upper(env.requestMethod) !in Requests
    ensures HandleRequestOf(env, w) == Success(Reply(500, map[], [NotImplementedMessage(Upper(env.requestMethod))]))
  {
  }

  /** The body is read before the method is looked at: a bad body fails even an unknown method. */
  lemma BodyReadFirst(env: Environ, w: World)
    requires Content(env, w.decode).Failure?
    ensures HandleRequestOf(env, w) == Failure(BadBody(Content(env, w.decode).error))
  {
  }

  lemma UpperIdempotent(s: string)
    ensures Upper(Upper(s)) == Upper(s)
  {
  }

  /** The method is matched without regard to case. */
  lemma IgnoresCase(env: Environ, w: World)
    ensures HandleRequestOf(env.(requestMethod := Upper(env.requestMethod)), w) == HandleRequestOf(env, w)
  {
    UpperIdempotent(env.requestMethod);
  }

  /** __call__: the triple with Content-Length, the summed length of the chunks. */
  function CallOf(env: Environ, w: World): Result<Reply, AppError> {
    match HandleRequestOf(env, w)
    case Failure(e) => Failure(e)
    case Success(reply) => Success(WithContentLength(reply))
  }

  method Call(env: Environ, w: World) returns (r: Result<Reply, AppError>)
    ensures r == CallOf(env, w)
  {
    var out := HandleRequest(env, w);
    if out.Failure? {
      return Failure(out.error);
    }
    var reply := out.value;
    var n := ContentLength(reply.content);
    return Success(Reply(reply.status, reply.headers[ContentLengthHeader := IntToString(n)], reply.content));
  }

  /** An unknown method's answer goes out with the length of its message as Content-Length. */
  lemma UnknownMethodSent(env: Environ, w: World)
    requires Content(env, w.decode).Success?
    requires Upper(env.requestMethod) !in Requests
    ensures var msg := NotImplementedMessage(Upper(env.requestMethod));
      CallOf(env, w) == Success(Reply(500, map[ContentLengthHeader := IntToString(|msg|)], [msg]))
  {
    var msg := NotImplementedMessage(Upper(env.requestMethod));
    assert Concat([msg]) == Concat([]) + msg;
  }

  /** A successful MKCALENDAR goes out 201 with Cache-Control: no-cache and Content-Length 0. */
  lemma CreatedSent(env: Environ, w: World)
    requires Upper(env.requestMethod) == "MKCALENDAR"
    requires CallOf(env, w).Success? && CallOf(env, w).value.status == 201
    ensures CallOf(env, w).value == Reply(201, NoCache[ContentLengthHeader := "0"], [])
  {
    var content := Content(env, w.decode).value;
    assert Requests["MKCALENDAR"] == MkcalendarRequest;
    var out := MkCalendarOf(content, w.parse, w.fromIcal);
    assert HandleRequestOf(env, w) == Success(out.value.reply);
    MkCalendarSuccess(content, w.parse, w.fromIcal);
  }
}
