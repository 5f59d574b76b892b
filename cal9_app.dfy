/**
 * cal9/app.py: the WSGI application. It looks the lower-cased method up
 * among its own attributes, reads and decodes the body, sanitises the path,
 * loads the collection and its components, and calls the handler; __call__
 * then sets Content-Length on the handler's triple.
 */
module Cal9App {
  import opened Wrappers
  import opened Text
  import opened Ical
  import opened IcalCalendar
  import opened XmlUtils
  import opened Wsgi
  import opened PathLib

  // ---------------------------------------------------------------- dispatch

  /** What getattr(self, name) finds on the application. */
  datatype Attribute = OptionsHandler | PropfindHandler | OtherMethod(name: string)

  /** The application's other methods, which getattr also finds. */
  const OtherMethods: set<string> := {"manage", "wsgi_get_content", "wsgi_sanitize_path"}

  /** getattr(self, method.lower()): None stands for AttributeError. */
  function Lookup(requestMethod: string): Option<Attribute> {
    var name := Lower(requestMethod);
    if name == "options" then Some(OptionsHandler)
    else if name == "propfind" then Some(PropfindHandler)
    else if name in OtherMethods then Some(OtherMethod(name))
    else None
  }

  lemma LowerIdempotent(s: string)
    ensures Lower(Lower(s)) == Lower(s)
  {
  }

  /** The method is matched without regard to case. */
  lemma LookupIgnoresCase(m: string)
    ensures Lookup(m) == Lookup(Lower(m)) && Lookup(m) == Lookup(Upper(m))
  {
    LowerIdempotent(m);
    assert Lower(Upper(m)) == Lower(m) by {
      forall i | 0 <= i < |m| ensures Lower(Upper(m))[i] == Lower(m)[i] {
      }
    }
  }

  /** Exactly OPTIONS and PROPFIND, in any case, reach a request handler. */
  lemma LookupHandlers(m: string)
    ensures Lookup(m) == Some(OptionsHandler) <==> Lower(m) == "options"
    ensures Lookup(m) == Some(PropfindHandler) <==> Lower(m) == "propfind"
  {
  }

  // ----------------------------------------------------------- request body

  /** int(environ['CONTENT_LENGTH'] or 0): an empty field is 0. */
  function BodyLength(field: string): Option<int> {
    if field == "" then Some(0) else ParseInt(field)
  }

  /** An empty field is 0, a decimal rendering reads back, and a field that
      is neither empty nor an optionally signed run of digits is rejected. */
  lemma BodyLengthSpec(field: string, n: int)
    ensures BodyLength("") == Some(0)
    ensures BodyLength(IntToString(n)) == Some(n)
    ensures BodyLength(field) == None <==>
      field != "" && !AllDigits(field) && !(|field| >= 2 && field[0] == '-' && AllDigits(field[1..]))
  {
    IntToStringRoundTrip(n);
    assert |IntToString(n)| >= 1;
  }

  /** wsgi_get_content: the body decoded with the first charset that accepts it. */
  function Body(env: Environ, decode: (string, seq<byte>) -> Decoding): Result<string, BodyError> {
    match BodyLength(env.contentLength)
    case None => Failure(BadLength(env.contentLength))
    case Some(n) => FirstDecode(decode, Candidates(env.contentType), Read(env.input, n))
  }

  method GetContent(env: Environ, decode: (string, seq<byte>) -> Decoding) returns (r: Result<string, BodyError>)
    ensures r == Body(env, decode)
  {
    var n := BodyLength(env.contentLength);
    if n.None? {
      return Failure(BadLength(env.contentLength));
    }
    r := ReadBody(env, n.value, decode);
  }

  /** With an empty CONTENT_LENGTH nothing is read, and the empty body is decoded. */
  lemma EmptyLengthReadsNothing(env: Environ, decode: (string, seq<byte>) -> Decoding)
    requires env.contentLength == ""
    ensures Body(env, decode) == FirstDecode(decode, Candidates(env.contentType), [])
  {
  }

  // ------------------------------------------------------------------- path

  /** wsgi_sanitize_path: unquote, normalise, and keep one trailing slash unless the result is "/". */
  function Sanitize(path: string): string {
    var uri := Unquote(path);
    var norm := NormPath(uri);
    norm + (if EndsWith(uri, '/') && norm != "/" then "/" else "")
  }

  /**
   * The sanitised path ends with '/' exactly when the unquoted one did, or
   * when normpath left only slashes ("/" or "//").
   */
  lemma SanitizeTrailingSlash(path: string)
    ensures var uri := Unquote(path);
      EndsWith(Sanitize(path), '/') <==> EndsWith(uri, '/') || NormPath(uri) == "/" || NormPath(uri) == "//"
  {
    var uri := Unquote(path);
    var norm := NormPath(uri);
    NormPathTrailingSlash(uri);
    if EndsWith(uri, '/') && norm != "/" {
      assert Sanitize(path) == norm + "/";
      assert EndsWith(norm + "/", '/');
    } else {
      assert Sanitize(path) == norm + "";
      assert norm + "" == norm;
    }
  }

  /**
   * The sanitised path is the normalised one plus at most one '/': ".", or its
   * leading slashes followed by clean components joined with single slashes.
   */
  lemma SanitizeShape(path: string)
    ensures var norm := NormPath(Unquote(path));
      && (Sanitize(path) == norm || Sanitize(path) == norm + "/")
      && (norm == "." || exists k: nat, cs :: k <= 2 && Clean(cs, k) && norm == Slashes(k) + Join(cs, '/'))
  {
    NormPathShape(Unquote(path));
  }

  // --------------------------------------------------------------- handlers

  /** The backend, as from_path and the resources use it. */
  datatype Store = Store(isItem: string -> bool, load: string -> Component, props: string -> map<string, string>)

  /** The mimetype class attribute of an item class (a Timezone has None). */
  function MimetypeOf(k: Kind): string {
    if k in {Event, Todo, Journal} then MimeType else "None"
  }

  /** What propfind_response reads of one entry of from_path's list. */
  function ResourceOf(e: Entry, st: Store, codec: Codec, uuids: nat -> string): Resource {
    match e
    case CalendarEntry(p) =>
      Collection(CalendarName(p, st.props(p)), Etag(codec, st.load(p)), st.props(p),
                 codec.serialize(MergeItems(Timezones(st.load(p), uuids))))
    case ItemEntry(it) => ItemRes(it.name, Etag(codec, it.ical), MimetypeOf(it.kind), TagOf(it.kind).GetOr(""))
  }

  function Resources(es: seq<Entry>, st: Store, codec: Codec, uuids: nat -> string): (rs: seq<Resource>)
    ensures |rs| == |es| && forall i :: 0 <= i < |es| ==> rs[i] == ResourceOf(es[i], st, codec, uuids)
  {
    seq(|es|, i requires 0 <= i < |es| => ResourceOf(es[i], st, codec, uuids))
  }

  /**
   * An event, todo or journal is served under its own name and etag, as
   * text/calendar, tagged with its class's component name.
   */
  lemma ItemResource(it: Item, st: Store, codec: Codec, uuids: nat -> string)
    requires it.kind in {Event, Todo, Journal}
    ensures var r := ResourceOf(ItemEntry(it), st, codec, uuids);
      && r.ItemRes? && r.name == it.name && r.etag == Etag(codec, it.ical)
      && r.mimetype == MimeType && TagOf(it.kind) == Some(r.tag) && r.tag in ClassTags
  {
  }

  /**
   * The resources of a request: the collection first, then one item resource
   * per component, each typed text/calendar and tagged with its component name.
   */
  lemma CollectionsShape(path: string, w: World)
    ensures var rs := Collections(path, w);
      && |rs| >= 1 && rs[0].Collection?
      && forall i :: 1 <= i < |rs| ==> rs[i].ItemRes? && rs[i].mimetype == MimeType && rs[i].tag in ClassTags
  {
    var st := w.store;
    var root := st.load(CollectionPath(path, st.isItem(path)));
    var es := FromPath(path, st.isItem, st.load, w.uuids);
    var comps := Components(root, w.uuids);
    var rs := Collections(path, w);
    assert rs == Resources(es, st, w.codec, w.uuids);
    ComponentsAreEventsTodosJournals(root, w.uuids);
    forall i | 1 <= i < |rs|
      ensures rs[i].ItemRes? && rs[i].mimetype == MimeType && rs[i].tag in ClassTags
    {
      assert rs[i] == ResourceOf(es[i], st, w.codec, w.uuids);
      assert es[i] == ItemEntry(comps[i - 1]);
      assert comps[i - 1] in comps;
      ItemResource(comps[i - 1], st, w.codec, w.uuids);
    }
  }

  /** The component names a resource of an item may carry. */
  const ClassTags: set<string> := {"VEVENT", "VTODO", "VJOURNAL"}

  /** Why a request fails: the exception the code raises, by kind. */
  datatype AppError =
    | NotImplemented       // no attribute for the method
    | BadBody(e: BodyError)
    | BadXml               // ET.fromstring fails
    | NoPropElement        // dom.find returns None and the loop over it fails
    | WrongArguments       // an attribute that is not a handler called with handler arguments
    | NotATriple           // a handler result __call__ cannot unpack

  const PropTag: string := Tag("D", "prop")

  /** The requested property names: the tags of D:prop's children, in document order. */
  function Requested(dprop: Element): (ts: seq<string>)
    ensures |ts| == |dprop.children| && forall i :: 0 <= i < |ts| ==> ts[i] == dprop.children[i].tag
  {
    seq(|dprop.children|, i requires 0 <= i < |dprop.children| => dprop.children[i].tag)
  }

  /** The requested names of a body that parses and has a D:prop, else the error. */
  function RequestedIn(body: string, parse: string -> Option<Element>): (r: Result<seq<string>, AppError>)
    ensures r == Failure(BadXml) <==> parse(body).None?
    ensures r == Failure(NoPropElement) <==> parse(body).Some? && Find(parse(body).value, PropTag).None?
    ensures r.Success? ==> parse(body).Some? && Find(parse(body).value, PropTag).Some?
                           && r.value == Requested(Find(parse(body).value, PropTag).value)
  {
    match parse(body)
    case None => Failure(BadXml)
    case Some(dom) =>
      match Find(dom, PropTag)
      case None => Failure(NoPropElement)
      case Some(dprop) => Success(Requested(dprop))
  }

  /** The multistatus list: one response per resource, in order, each for exactly the requested names. */
  function Multistatus(path: string, resources: seq<Resource>, props: seq<string>): (ms: seq<Response>)
    ensures |ms| == |resources|
    ensures forall i :: 0 <= i < |resources| ==>
      ms[i] == Response(resources[i].name, OkList(Resolver(path, resources[i]), props),
                        MissingList(Resolver(path, resources[i]), props))
  {
    seq(|resources|, i requires 0 <= i < |resources| =>
      Response(resources[i].name, OkList(Resolver(path, resources[i]), props),
               MissingList(Resolver(path, resources[i]), props)))
  }

  /** propfind(): the D:prop of the request, then the multistatus list for its names. */
  method Propfind(path: string, resources: seq<Resource>, body: string, parse: string -> Option<Element>)
    returns (r: Result<seq<Response>, AppError>)
    ensures r.Failure? <==> RequestedIn(body, parse).Failure?
    ensures r.Failure? ==> r.error == RequestedIn(body, parse).error
    ensures r.Success? ==> r.value == Multistatus(path, resources, RequestedIn(body, parse).value)
  {
    var dom := parse(body);
    if dom.None? {
      return Failure(BadXml);
    }
    var dprop := Find(dom.value, PropTag);
    if dprop.None? {
      return Failure(NoPropElement);
    }
    var props := Requested(dprop.value);
    var multistatus: seq<Response> := [];
    var i := 0;
    while i < |resources|
      invariant 0 <= i <= |resources|
      invariant |multistatus| == i
      invariant forall j :: 0 <= j < i ==>
        multistatus[j] == Response(resources[j].name, OkList(Resolver(path, resources[j]), props),
                                   MissingList(Resolver(path, resources[j]), props))
    {
      var response := PropfindResponse(path, resources[i], props);
      multistatus := multistatus + [response];
      i := i + 1;
    }
    return Success(multistatus);
  }

  /** A request without a D:prop element gets no multistatus list, whatever the resources. */
  lemma PropfindNeedsProp(dom: Element)
    requires forall i :: 0 <= i < |dom.children| ==> dom.children[i].tag != PropTag
    ensures RequestedIn("b", b => Some(dom)) == Failure(NoPropElement)
  {
    FindSpec(dom, PropTag);
  }

  // ------------------------------------------------------------------ manage

  /** What a handler hands back: a triple, or (propfind) the multistatus document. */
  datatype Output = Triple(reply: Reply) | Document(responses: seq<Response>)

  /** The pieces of the world the application calls: decoder, XML parser, backend, iCalendar codec, uuids. */
  datatype World = World(decode: (string, seq<byte>) -> Decoding, parse: string -> Option<Element>,
                         store: Store, codec: Codec, uuids: nat -> string)

  /** The collection list manage() passes to the handler, as resources. */
  function Collections(path: string, w: World): seq<Resource> {
    Resources(FromPath(path, w.store.isItem, w.store.load, w.uuids), w.store, w.codec, w.uuids)
  }

  /** What the attribute found for the method does with the body and the sanitised path. */
  function Handle(a: Attribute, path: string, body: string, w: World): Result<Output, AppError> {
    match a
    case OptionsHandler => Success(Triple(OptionsReply()))
    case PropfindHandler =>
      (match RequestedIn(body, w.parse)
       case Failure(e) => Failure(e)
       case Success(props) => Success(Document(Multistatus(path, Collections(path, w), props))))
    case OtherMethod(_) => Failure(WrongArguments)
  }

  /** The outcome of manage() for a request. */
  function ManageOf(env: Environ, w: World): Result<Output, AppError> {
    match Lookup(env.requestMethod)
    case None => Failure(NotImplemented)
    case Some(a) =>
      match Body(env, w.decode)
      case Failure(e) => Failure(BadBody(e))
      case Success(body) => Handle(a, Sanitize(env.pathInfo), body, w)
  }

  /** manage(): look the method up, read the body, sanitise the path, load, call the handler. */
  method Manage(env: Environ, w: World) returns (r: Result<Output, AppError>)
    ensures r == ManageOf(env, w)
  {
    var found := Lookup(env.requestMethod);
    if found.None? {
      return Failure(NotImplemented);
    }
    var body := GetContent(env, w.decode);
    if body.Failure? {
      return Failure(BadBody(body.error));
    }
    var path := Sanitize(env.pathInfo);
    var collections := Collections(path, w);
    match found.value {
      case OptionsHandler =>
        r := Success(Triple(OptionsReply()));
      case PropfindHandler =>
        var ms := Propfind(path, collections, body.value, w.parse);
        if ms.Failure? {
          r := Failure(ms.error);
        } else {
          r := Success(Document(ms.value));
        }
      case OtherMethod(_) =>
        r := Failure(WrongArguments);
    }
    assert r == Handle(found.value, path, body.value, w);
  }

  /** An unknown method fails with NotImplementedError, and only an unknown method does. */
  lemma UnknownMethod(env: Environ, w: World)
    ensures ManageOf(env, w) == Failure(NotImplemented) <==> Lookup(env.requestMethod).None?
  {
    match Lookup(env.requestMethod)
    case None =>
    case Some(a) =>
      match Body(env, w.decode)
      case Failure(e) =>
      case Success(body) =>
        var h := Handle(a, Sanitize(env.pathInfo), body, w);
        assert h.Failure? ==> h.error != NotImplemented;
  }

  /** The body is read only for a method the application has: a bad length is reported for known methods. */
  lemma BadLengthAfterLookup(env: Environ, w: World)
    requires Lookup(env.requestMethod).Some? && env.contentLength == "x"
    ensures ManageOf(env, w) == Failure(BadBody(BadLength("x")))
  {
    assert ParseInt("x") == None;
  }
  // -------------------------------------------------------------------- call

  /** __call__ on manage()'s outcome: a triple gets Content-Length; anything else cannot be unpacked. */
  function Send(out: Result<Output, AppError>): Result<Reply, AppError> {
    match out
    case Failure(e) => Failure(e)
    case Success(Triple(reply)) => Success(WithContentLength(reply))
    case Success(Document(_)) => Failure(NotATriple)
  }

  function CallOf(env: Environ, w: World): Result<Reply, AppError> {
    Send(ManageOf(env, w))
  }

  method Call(env: Environ, w: World) returns (r: Result<Reply, AppError>)
    ensures r == CallOf(env, w)
  {
    var out := Manage(env, w);
    if out.Failure? {
      return Failure(out.error);
    }
    match out.value {
      case Triple(reply) =>
        var n := ContentLength(reply.content);
        var headers := reply.headers[ContentLengthHeader := IntToString(n)];
        return Success(Reply(reply.status, headers, reply.content));
      case Document(_) =>
        return Failure(NotATriple);
    }
  }

  /** As written, a PROPFIND never gets an answer: its document is not a triple. */
  lemma PropfindNeverAnswered(env: Environ, w: World)
    requires Lower(env.requestMethod) == "propfind"
    ensures CallOf(env, w).Failure?
  {
    if ManageOf(env, w).Success? {
      PropfindGivesDocument(env, w);
    }
  }

  /** The body of the example below: a D:propfind whose D:prop names nothing. */
  const ExampleBodyText: string := "<D:propfind xmlns:D=\"DAV:\"><D:prop/></D:propfind>"

  /**
   * A concrete PROPFIND that still fails: the body arrives with its length in
   * CONTENT_LENGTH, decodes as utf-8 and parses to a D:propfind holding an empty
   * D:prop, and its multistatus is built, yet __call__ cannot unpack it.
   */
  lemma PropfindExample(path: string, bytes: seq<byte>, w: World)
    requires w.decode("utf-8", bytes) == Decoded(ExampleBodyText)
    requires w.parse(ExampleBodyText) == Some(Element(Tag("D", "propfind"), map[], None, [Element(PropTag, map[], None, [])]))
    ensures var env := Environ("PROPFIND", path, IntToString(|bytes|), "", bytes);
      ManageOf(env, w).Success? && CallOf(env, w) == Failure(NotATriple)
  {
    var env := Environ("PROPFIND", path, IntToString(|bytes|), "", bytes);
    assert Lookup("PROPFIND") == Some(PropfindHandler) by {
      assert Lower("PROPFIND") == "propfind";
    }
    ExampleBody(env, w.decode);
    ExampleRequested(w.parse);
    PropfindDocument(env, w, ExampleBodyText, []);
  }

  /**
   * A PROPFIND whose body decodes and names its properties in a D:prop gets
   * the multistatus list for those names over the collection of the sanitised path.
   */
  lemma PropfindDocument(env: Environ, w: World, body: string, props: seq<string>)
    requires Lookup(env.requestMethod) == Some(PropfindHandler)
    requires Body(env, w.decode) == Success(body) && RequestedIn(body, w.parse) == Success(props)
    ensures var path := Sanitize(env.pathInfo);
      ManageOf(env, w) == Success(Document(Multistatus(path, Collections(path, w), props)))
  {
    assert ManageOf(env, w) == Handle(PropfindHandler, Sanitize(env.pathInfo), body, w);
    HandlePropfind(Sanitize(env.pathInfo), body, w, props);
  }

  lemma HandlePropfind(path: string, body: string, w: World, props: seq<string>)
    requires RequestedIn(body, w.parse) == Success(props)
    ensures Handle(PropfindHandler, path, body, w) == Success(Document(Multistatus(path, Collections(path, w), props)))
  {
  }

  /** A body read whole, with no declared charset, is decoded as utf-8 first. */
  lemma ExampleBody(env: Environ, decode: (string, seq<byte>) -> Decoding)
    requires env.contentLength == IntToString(|env.input|) && env.contentType == ""
    requires decode("utf-8", env.input) == Decoded(ExampleBodyText)
    ensures Body(env, decode) == Success(ExampleBodyText)
  {
    BodyLengthSpec("", |env.input|);
    assert Read(env.input, |env.input|) == env.input;
    assert !Declares("");
    assert Candidates("")[0] == "utf-8";
  }

  /** A body whose root holds an empty D:prop requests no names. */
  lemma ExampleRequested(parse: string -> Option<Element>)
    requires parse(ExampleBodyText) == Some(Element(Tag("D", "propfind"), map[], None, [Element(PropTag, map[], None, [])]))
    ensures RequestedIn(ExampleBodyText, parse) == Success([])
  {
    var dom := parse(ExampleBodyText).value;
    assert dom.children[0].tag == PropTag;
  }

  /**
   * The corrected __call__: a multistatus document goes out as the single
   * content chunk of a 207 answer, rendered by `render`.
   */
  function FixedSend(out: Result<Output, AppError>, render: seq<Response> -> string): Result<Reply, AppError> {
    match out
    case Failure(e) => Failure(e)
    case Success(Triple(reply)) => Success(WithContentLength(reply))
    case Success(Document(ms)) => Success(WithContentLength(Reply(207, map[], [render(ms)])))
  }

  /** Whatever manage() accepts for PROPFIND is a multistatus document. */
  lemma PropfindGivesDocument(env: Environ, w: World)
    requires Lower(env.requestMethod) == "propfind" && ManageOf(env, w).Success?
    ensures ManageOf(env, w).value.Document?
  {
    assert Lookup(env.requestMethod) == Some(PropfindHandler);
    var body := Body(env, w.decode).value;
    assert ManageOf(env, w) == Handle(PropfindHandler, Sanitize(env.pathInfo), body, w);
  }

  /** With the correction, a multistatus document is answered 207, in one chunk, with its length. */
  lemma FixedPropfindAnswered(render: seq<Response> -> string, ms: seq<Response>)
    ensures var r := FixedSend(Success(Document(ms)), render);
      && r.Success? && r.value.status == 207 && r.value.content == [render(ms)]
      && r.value.headers == map[ContentLengthHeader := IntToString(|render(ms)|)]
  {
    assert Concat([render(ms)]) == Concat([]) + render(ms);
  }

  /** Outcomes that are not a document are sent exactly as before the correction. */
  lemma FixedSendAgrees(out: Result<Output, AppError>, render: seq<Response> -> string)
    requires !(out.Success? && out.value.Document?)
    ensures FixedSend(out, render) == Send(out)
  {
  }
}
