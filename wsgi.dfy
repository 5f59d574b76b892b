/**
 * The WSGI side shared by both applications (cal9/app.py and 9cal/app.py):
 * the request environment, the (status, headers, content) triple, the
 * Content-Length header computed from the content, the OPTIONS answer that
 * cal9/app.py, cal9/requests.py and 9cal/requests.py all give, and the
 * reading and decoding of the request body with its charset candidates.
 */
module Wsgi {
  import opened Wrappers
  import opened Text

  newtype byte = x: int | 0 <= x < 256

  /**
   * The environ keys the applications read: REQUEST_METHOD, PATH_INFO,
   * CONTENT_LENGTH, CONTENT_TYPE, and what wsgi.input would deliver.
   */
  datatype Environ = Environ(requestMethod: string, pathInfo: string, contentLength: string,
                             contentType: string, input: seq<byte>)

  /** A handler's (status, headers, content) triple. */
  datatype Reply = Reply(status: int, headers: map<string, string>, content: seq<string>)

  // ---------------------------------------------------------- Content-Length

  /** The content chunks one after the other. */
  function Concat(chunks: seq<string>): string {
    if chunks == [] then "" else Concat(chunks[..|chunks| - 1]) + chunks[|chunks| - 1]
  }

  lemma {:induction false} ConcatAppend(a: seq<string>, b: seq<string>)
    ensures Concat(a + b) == Concat(a) + Concat(b)
    decreases |b|
  {
    if b != [] {
      var m := |b| - 1;
      ConcatAppend(a, b[..m]);
      assert (a + b)[..|a + b| - 1] == a + b[..m];
      assert (a + b)[|a + b| - 1] == b[m];
    } else {
      assert a + b == a;
    }
  }

  /** sum(len(c) for c in content): the length of everything the response sends. */
  method ContentLength(content: seq<string>) returns (n: nat)
    ensures n == |Concat(content)|
  {
    n := 0;
    var i := 0;
    while i < |content|
      invariant 0 <= i <= |content|
      invariant n == |Concat(content[..i])|
    {
      assert content[..i + 1][..i] == content[..i];
      n := n + |content[i]|;
      i := i + 1;
    }
    assert content[..|content|] == content;
  }

  const ContentLengthHeader: string := "Content-Length"

  /** The triple after __call__ sets Content-Length (the header holds its decimal text). */
  function WithContentLength(r: Reply): Reply {
    r.(headers := r.headers[ContentLengthHeader := IntToString(|Concat(r.content)|)])
  }

  /**
   * Setting Content-Length keeps status, content and every other header, and
   * the header reads back as the length of the content.
   */
  lemma WithContentLengthSpec(r: Reply)
    ensures var w := WithContentLength(r);
      && w.status == r.status && w.content == r.content
      && ContentLengthHeader in w.headers
      && ParseInt(w.headers[ContentLengthHeader]) == Some(|Concat(r.content)|)
      && forall h :: h in r.headers && h != ContentLengthHeader ==> h in w.headers && w.headers[h] == r.headers[h]
  {
    IntToStringRoundTrip(|Concat(r.content)|);
  }

  // ----------------------------------------------------------------- OPTIONS

  const AllowValue: string :=
    "OPTIONS, GET, HEAD, POST, PUT, DELETE, TRACE, COPY, MOVE, PROPFIND, PROPPATCH, LOCK, UNLOCK, REPORT, ACL"
  const DavValue: string := "1, 2, access-control, calendar-access"

  /** The OPTIONS answer: 200, the Allow and DAV headers, no content. */
  function OptionsReply(): Reply {
    Reply(200, map["Allow" := AllowValue, "DAV" := DavValue], [])
  }

  /** An OPTIONS answer goes out with exactly Allow, DAV and a zero Content-Length. */
  lemma OptionsSent()
    ensures var w := WithContentLength(OptionsReply());
      w.status == 200 && w.content == []
      && w.headers == map["Allow" := AllowValue, "DAV" := DavValue, ContentLengthHeader := "0"]
  {
  }

  // ------------------------------------------------------------ request body

  /** wsgi.input.read(n): at most n bytes; a negative n reads everything. */
  function Read(input: seq<byte>, n: int): (r: seq<byte>)
    ensures n >= 0 ==> |r| == if n < |input| then n else |input|
    ensures |r| <= |input| && r == input[..|r|]
  {
    if n < 0 || n >= |input| then input else input[..n]
  }

  const Marker: string := "charset="

  /** Whether the content type declares a charset. */
  predicate Declares(contentType: string) {
    contentType != "" && IndexOf(contentType, Marker).Some?
  }

  /**
   * The charsets to try, in order: the declared one (the stripped text after the
   * first "charset=", up to the next one), then utf-8, then iso8859-1.
   */
  function Candidates(contentType: string): (cs: seq<string>)
    ensures |cs| == if Declares(contentType) then 3 else 2
    ensures cs[|cs| - 2..] == ["utf-8", "iso8859-1"]
    ensures Declares(contentType) ==> cs[0] == Strip(SecondField(contentType, Marker))
  {
    (if Declares(contentType) then [Strip(SecondField(contentType, Marker))] else []) + ["utf-8", "iso8859-1"]
  }

  /**
   * One decode attempt: the text, a failure on these bytes (UnicodeDecodeError,
   * which is caught) or an unknown charset name (LookupError, which is not).
   */
  datatype Decoding = Decoded(text: string) | BadBytes | UnknownCharset

  /** Why the request body could not be obtained. */
  datatype BodyError = BadLength(field: string) | NoSuchCharset(charset: string) | Undecodable

  /** The outcome of trying the charsets in order, the first success winning. */
  function FirstDecode(decode: (string, seq<byte>) -> Decoding, cs: seq<string>, bytes: seq<byte>): (r: Result<string, BodyError>)
    ensures r.Failure? ==> r.error.Undecodable? || r.error.NoSuchCharset?
  {
    if cs == [] then Failure(Undecodable)
    else match decode(cs[0], bytes)
      case Decoded(t) => Success(t)
      case UnknownCharset => Failure(NoSuchCharset(cs[0]))
      case BadBytes => FirstDecode(decode, cs[1..], bytes)
  }

  /**
   * The first charset that does not reject the bytes decides: its text, or
   * NoSuchCharset naming it; Undecodable exactly when every one rejects them.
   */
  lemma {:induction false} FirstDecodeSpec(decode: (string, seq<byte>) -> Decoding, cs: seq<string>, bytes: seq<byte>)
    ensures var r := FirstDecode(decode, cs, bytes);
      && (r.Success? <==> exists i :: 0 <= i < |cs| && decode(cs[i], bytes).Decoded?
                                      && forall j :: 0 <= j < i ==> decode(cs[j], bytes) == BadBytes)
      && (r.Success? ==> exists i :: 0 <= i < |cs| && decode(cs[i], bytes) == Decoded(r.value)
                                     && forall j :: 0 <= j < i ==> decode(cs[j], bytes) == BadBytes)
      && (r == Failure(Undecodable) <==> forall i :: 0 <= i < |cs| ==> decode(cs[i], bytes) == BadBytes)
      && (r.Failure? && r.error.NoSuchCharset? ==>
            exists i :: 0 <= i < |cs| && cs[i] == r.error.charset && decode(cs[i], bytes) == UnknownCharset
                        && forall j :: 0 <= j < i ==> decode(cs[j], bytes) == BadBytes)
  {
    if cs != [] && decode(cs[0], bytes).BadBytes? {
      var r := FirstDecode(decode, cs[1..], bytes);
      FirstDecodeSpec(decode, cs[1..], bytes);
      assert forall i :: 0 < i < |cs| ==> cs[i] == cs[1..][i - 1];
      if r.Success? {
        var i :| 0 <= i < |cs[1..]| && decode(cs[1..][i], bytes) == Decoded(r.value)
                 && forall j :: 0 <= j < i ==> decode(cs[1..][j], bytes) == BadBytes;
        assert decode(cs[i + 1], bytes) == Decoded(r.value);
        assert forall j :: 0 <= j < i + 1 ==> decode(cs[j], bytes) == BadBytes;
      } else if r.error.NoSuchCharset? {
        var i :| 0 <= i < |cs[1..]| && cs[1..][i] == r.error.charset && decode(cs[1..][i], bytes) == UnknownCharset
                 && forall j :: 0 <= j < i ==> decode(cs[1..][j], bytes) == BadBytes;
        assert cs[i + 1] == r.error.charset && decode(cs[i + 1], bytes) == UnknownCharset;
        assert forall j :: 0 <= j < i + 1 ==> decode(cs[j], bytes) == BadBytes;
      }
    }
  }

  /** The decode loop: try each charset, return the first text, give up after the last one. */
  method DecodeBody(decode: (string, seq<byte>) -> Decoding, cs: seq<string>, bytes: seq<byte>)
    returns (r: Result<string, BodyError>)
    ensures r == FirstDecode(decode, cs, bytes)
  {
    var i := 0;
    while i < |cs|
      invariant 0 <= i <= |cs|
      invariant FirstDecode(decode, cs, bytes) == FirstDecode(decode, cs[i..], bytes)
    {
      match decode(cs[i], bytes) {
        case Decoded(t) =>
          return Success(t);
        case UnknownCharset =>
          return Failure(NoSuchCharset(cs[i]));
        case BadBytes =>
      }
      assert cs[i..][1..] == cs[i + 1..];
      i := i + 1;
    }
    return Failure(Undecodable);
  }

  /**
   * Reading and decoding a body of n bytes: the bytes read, then the candidates
   * of the declared content type, in order.
   */
  method ReadBody(env: Environ, n: int, decode: (string, seq<byte>) -> Decoding)
    returns (r: Result<string, BodyError>)
    ensures r == FirstDecode(decode, Candidates(env.contentType), Read(env.input, n))
  {
    var content := Read(env.input, n);
    var charsets := Candidates(env.contentType);
    r := DecodeBody(decode, charsets, content);
  }

  /** When some candidate decodes and no name is unknown, the body is decoded. */
  lemma {:induction false} SomeCandidateDecodes(decode: (string, seq<byte>) -> Decoding, cs: seq<string>,
                                                bytes: seq<byte>, i: nat)
    requires i < |cs| && decode(cs[i], bytes).Decoded?
    requires forall j :: 0 <= j < |cs| ==> decode(cs[j], bytes) != UnknownCharset
    ensures FirstDecode(decode, cs, bytes).Success?
  {
    if decode(cs[0], bytes).BadBytes? {
      assert i > 0;
      assert forall j :: 0 <= j < |cs[1..]| ==> cs[1..][j] == cs[j + 1];
      SomeCandidateDecodes(decode, cs[1..], bytes, i - 1);
    }
  }

  /** A body iso8859-1 accepts is never rejected, unless a charset name is unknown. */
  lemma DefaultsTried(decode: (string, seq<byte>) -> Decoding, contentType: string, bytes: seq<byte>)
    requires decode("iso8859-1", bytes).Decoded?
    requires forall c :: c in Candidates(contentType) ==> decode(c, bytes) != UnknownCharset
    ensures FirstDecode(decode, Candidates(contentType), bytes).Success?
  {
    var cs := Candidates(contentType);
    assert cs[|cs| - 1] == "iso8859-1";
    SomeCandidateDecodes(decode, cs, bytes, |cs| - 1);
  }
}
