/** How the WinHTTP backend prepares a request body: whole, or as parts with an advertised length. */
module PreparedBody {
  import opened Bytes
  import opened Streams
  import opened ChunkedCoding
  import opened StreamWriter
  import opened StreamUpload
  import opened WinHttpContext
  import opened Multipart
  import opened MultipartParse

  const U32_MAX: nat := 0xFFFF_FFFF

  /** The request body; a form arrives already encoded, since its encoder is a library. */
  datatype Body =
    | BytesBody(content: seq<byte>)
    | FormBody(encoded: seq<byte>)
    | MultipartBody(parts: seq<FormPart>)
    | StreamBody(source: Source)

  datatype Prepared =
    | Nothing
    | Complete(data: seq<byte>)
    | Parts(contentLength: Option<nat>, parts: seq<Part>)
  {
    /** `body_len`. */
    function BodyLen(): Option<nat> {
      match this
      case Nothing => Some(0)
      case Complete(data) => Some(|data|)
      case Parts(contentLength, _) => contentLength
    }

    /** Everything the prepared body holds. */
    function Whole(): seq<byte> {
      match this
      case Nothing => []
      case Complete(data) => data
      case Parts(_, parts) => Content(parts)
    }
  }

  /** What the body says, with streams read to their end. */
  function Meaning(body: Option<Body>, boundary: seq<byte>): seq<byte> {
    match body
    case None => []
    case Some(BytesBody(content)) => content
    case Some(FormBody(encoded)) => encoded
    case Some(MultipartBody(parts)) => Render(boundary, parts)
    case Some(StreamBody(source)) => source.rest
  }

  /** The length of one part, if it is known. */
  function PartLen(p: Part, streamLen: Source -> Option<nat>): Option<nat> {
    match p
    case Data(d) => Some(|d|)
    case Stream(s) => streamLen(s)
  }

  /** The sum of the lengths, none as soon as one is unknown. */
  function SumLens(parts: seq<Part>, streamLen: Source -> Option<nat>): Option<nat> {
    if parts == [] then Some(0)
    else match (PartLen(parts[0], streamLen), SumLens(parts[1..], streamLen)) {
      case (Some(a), Some(b)) => Some(a + b)
      case _ => None
    }
  }

  /** Every stream of the list has a known length. */
  predicate AllSized(parts: seq<Part>, streamLen: Source -> Option<nat>) {
    parts == [] || ((parts[0].Stream? ==> streamLen(parts[0].source).Some?) && AllSized(parts[1..], streamLen))
  }

  /** Every stream holds as many bytes as its length says. */
  predicate Honoured(parts: seq<Part>, streamLen: Source -> Option<nat>) {
    parts == [] || ((parts[0].Stream? ==> streamLen(parts[0].source) in {None, Some(|parts[0].source.rest|)}) &&
                    Honoured(parts[1..], streamLen))
  }

  lemma {:induction false} SumLensIsContent(parts: seq<Part>, streamLen: Source -> Option<nat>)
    ensures SumLens(parts, streamLen).Some? <==> AllSized(parts, streamLen)
    ensures Honoured(parts, streamLen) && AllSized(parts, streamLen) ==>
        SumLens(parts, streamLen) == Some(|Content(parts)|)
  {
    if parts != [] {
      SumLensIsContent(parts[1..], streamLen);
    }
  }

  /** The pieces of at most `U32_MAX` bytes that a longer content is cut into. */
  predicate SmallData(parts: seq<Part>) {
    parts == [] || (parts[0].Data? && 0 < |parts[0].bytes| <= U32_MAX && SmallData(parts[1..]))
  }

  lemma {:induction false} SmallDataAppend(parts: seq<Part>, d: seq<byte>)
    requires SmallData(parts) && 0 < |d| <= U32_MAX
    ensures SmallData(parts + [Data(d)])
  {
    if parts != [] {
      SmallDataAppend(parts[1..], d);
      assert (parts + [Data(d)])[1..] == parts[1..] + [Data(d)];
    }
  }

  lemma {:induction false} SmallDataLength(parts: seq<Part>, streamLen: Source -> Option<nat>)
    requires SmallData(parts)
    ensures AllSized(parts, streamLen) && Honoured(parts, streamLen)
    ensures NeverFails(parts) && StreamItems(parts) == []
  {
    if parts != [] {
      SmallDataLength(parts[1..], streamLen);
    }
  }

  /** The loop that cuts a content into pieces the system can take. */
  method SplitContent(content: seq<byte>) returns (parts: seq<Part>)
    ensures Content(parts) == content && SmallData(parts)
    ensures forall i | 0 <= i < |parts| - 1 :: parts[i].Data? && |parts[i].bytes| == 0xFFFF_FFFF
  {
    parts := [];
    var offset := 0;
    while offset < |content|
      invariant offset <= |content| && Content(parts) == content[..offset] && SmallData(parts)
      invariant forall i | 0 <= i < |parts| ::
                  parts[i].Data? && (i < |parts| - 1 || offset < |content| ==> |parts[i].bytes| == 0xFFFF_FFFF)
      decreases |content| - offset
    {
      var size := Min(U32_MAX, |content| - offset);
      var piece := content[offset..][..size];
      ContentAppend(parts, [Data(piece)]);
      SmallDataAppend(parts, piece);
      assert Content([Data(piece)]) == piece + Content([]);
      assert content[..offset + size] == content[..offset] + piece;
      parts := parts + [Data(piece)];
      offset := offset + size;
    }
    assert content[..|content|] == content;
  }

  /** Leading data is gathered until the first stream. */
  method Collapse(items: seq<Part>) returns (data: seq<byte>, stream: Option<Source>, rest: seq<Part>)
    ensures stream.None? ==> rest == [] && StreamItems(items) == [] && data == Content(items)
    ensures stream.Some? ==> StreamItems(items) == [Stream(stream.value)] + StreamItems(rest)
    ensures stream.Some? ==> data + (stream.value.rest + Content(rest)) == Content(items)
  {
    data, rest := [], items;
    while rest != []
      invariant data + Content(rest) == Content(items) && StreamItems(rest) == StreamItems(items)
      decreases |rest|
    {
      var head := rest[0];
      rest := rest[1..];
      match head {
        case Data(d) =>
          Assoc(data, d, Content(rest));
          if data == [] {
            assert data + d == d;
            data := d;
          } else {
            data := data + d;
          }
        case Stream(s) =>
          stream := Some(s);
          return;
      }
    }
    stream := None;
  }

  /** The body is handed to the system whole. */
  predicate SentWhole(body: Option<Body>) {
    match body
    case None => true
    case Some(BytesBody(content)) => |content| <= U32_MAX
    case Some(FormBody(_)) => true
    case Some(MultipartBody(fields)) => StreamCount(fields) == 0
    case Some(StreamBody(_)) => false
  }

  /** The streams of a request body, in order. */
  function BodyStreams(body: Option<Body>): seq<Part> {
    match body
    case Some(MultipartBody(fields)) => StreamsOf(fields)
    case Some(StreamBody(source)) => [Stream(source)]
    case _ => []
  }

  /** A stream of the body has no length. */
  ghost predicate SomeUnsized(body: Option<Body>, streamLen: Source -> Option<nat>) {
    exists s :: Stream(s) in BodyStreams(body) && streamLen(s).None?
  }

  /** Every stream of the body holds as many bytes as its length says, if it has one. */
  ghost predicate LengthsHonoured(body: Option<Body>, streamLen: Source -> Option<nat>) {
    forall s | Stream(s) in BodyStreams(body) :: streamLen(s) in {None, Some(|s.rest|)}
  }

  lemma {:induction false} SizedIff(parts: seq<Part>, streamLen: Source -> Option<nat>)
    ensures AllSized(parts, streamLen) <==> forall s | Stream(s) in StreamItems(parts) :: streamLen(s).Some?
    ensures Honoured(parts, streamLen) <==>
            forall s | Stream(s) in StreamItems(parts) :: streamLen(s) in {None, Some(|s.rest|)}
  {
    if parts != [] {
      SizedIff(parts[1..], streamLen);
      if parts[0].Stream? {
        assert StreamItems(parts)[0] == parts[0];
        assert parts[0] in StreamItems(parts);
        assert forall s | Stream(s) in StreamItems(parts) ::
            Stream(s) == parts[0] || Stream(s) in StreamItems(parts[1..]);
      }
    }
  }

  /** A body is sent whole unless it has streams or its bytes exceed a 32-bit length. */
  lemma SentWholeIff(body: Option<Body>)
    ensures SentWhole(body) <==>
            BodyStreams(body) == [] && (body.Some? && body.value.BytesBody? ==> |body.value.content| <= 0xFFFF_FFFF)
  {
    if body.Some? && body.value.MultipartBody? {
      StreamCountIsLength(body.value.parts);
    }
  }

  lemma NoStreamIsUnsized(body: Option<Body>, streamLen: Source -> Option<nat>)
    ensures BodyStreams(body) == [] ==> !SomeUnsized(body, streamLen)
  {
  }

  /** What the preparation of a body's parts says about the streams of the body. */
  lemma PreparedLength(body: Option<Body>, streamLen: Source -> Option<nat>, parts: seq<Part>)
    requires StreamItems(parts) == BodyStreams(body)
    ensures AllSized(parts, streamLen) <==> !SomeUnsized(body, streamLen)
    ensures Honoured(parts, streamLen) <==> LengthsHonoured(body, streamLen)
  {
    SizedIff(parts, streamLen);
  }

  /** `prepare_body`: whatever form it chooses, the prepared body says the same bytes as the request. A long content
      becomes parts that all fit a 32-bit length; a multipart form without streams becomes one whole; otherwise
      a length is advertised exactly when every stream has one, and it is right when they honour it. */
  method PrepareBody(body: Option<Body>, streamLen: Source -> Option<nat>, boundary: seq<byte>) returns (r: Prepared)
    ensures r.Whole() == Meaning(body, boundary)
    ensures r.Nothing? <==> body.None?
    ensures r.Parts? ==> (r.contentLength.Some? <==> AllSized(r.parts, streamLen))
    ensures r.Parts? && Honoured(r.parts, streamLen) && r.contentLength.Some? ==> r.contentLength == Some(|r.Whole()|)
    ensures body.Some? && body.value.BytesBody? ==>
              (r.Complete? <==> |body.value.content| <= U32_MAX) &&
              (r.Parts? ==> SmallData(r.parts) && StreamItems(r.parts) == [])
    ensures body.Some? && body.value.FormBody? ==> r.Complete?
    ensures body.Some? && body.value.MultipartBody? ==>
              (r.Complete? <==> StreamCount(body.value.parts) == 0) &&
              (r.Parts? ==> StreamItems(r.parts) == StreamsOf(body.value.parts))
    ensures body.Some? && body.value.StreamBody? ==> r.Parts? && r.parts == [Stream(body.value.source)]
    ensures r.Parts? <==> !SentWhole(body)
    ensures r.Parts? ==> StreamItems(r.parts) == BodyStreams(body)
  {
    match body {
      case None => r := Nothing;
      case Some(BytesBody(content)) =>
        if |content| <= U32_MAX {
          r := Complete(content);
        } else {
          var parts := SplitContent(content);
          SmallDataLength(parts, streamLen);
          SumLensIsContent(parts, streamLen);
          r := Parts(Some(|content|), parts);
        }
      case Some(FormBody(encoded)) => r := Complete(encoded);
      case Some(MultipartBody(fields)) =>
        r := PrepareMultipart(fields, streamLen, boundary);
      case Some(StreamBody(source)) =>
        var parts := [Stream(source)];
        SumLensIsContent(parts, streamLen);
        assert Content(parts) == source.rest + Content([]);
        r := Parts(streamLen(source), parts);
    }
  }

  method PrepareMultipart(fields: seq<FormPart>, streamLen: Source -> Option<nat>, boundary: seq<byte>)
      returns (r: Prepared)
    ensures r.Whole() == Render(boundary, fields) && !r.Nothing?
    ensures r.Complete? <==> StreamCount(fields) == 0
    ensures r.Parts? ==> (r.contentLength.Some? <==> AllSized(r.parts, streamLen))
    ensures r.Parts? && Honoured(r.parts, streamLen) && r.contentLength.Some? ==> r.contentLength == Some(|r.Whole()|)
    ensures r.Parts? ==> StreamItems(r.parts) == StreamsOf(fields)
  {
    var items, _ := GenerateMultipartBody(boundary, fields);
    StreamCountIsLength(fields);
    var data, stream, rest := Collapse(items);
    if stream.None? {
      return Complete(data);
    }
    var parts := [Data(data), Stream(stream.value)] + rest;
    assert parts[1..] == [Stream(stream.value)] + rest && parts[1..][1..] == rest;
    SumLensIsContent(parts, streamLen);
    r := Parts(SumLens(parts, streamLen), parts);
  }

  lemma {:induction false} StreamCountIsLength(fields: seq<FormPart>)
    ensures |StreamsOf(fields)| == StreamCount(fields)
  {
    if fields != [] {
      StreamCountIsLength(fields[1..]);
    }
  }

  /** The advertised length is what an unchunked writer emits. */
  lemma AdvertisedLengthIsSent(r: Prepared)
    ensures r.Parts? && r.contentLength == Some(|r.Whole()|) && Completes(r.parts, MaxChunkSize(false)) ==>
              r.BodyLen() == Some(|NewUpload(r.parts, false).Total()|)
    ensures !r.Parts? ==> r.BodyLen() == Some(|r.Whole()|)
  {
    hide Wire;
    if r.Parts? && Completes(r.parts, MaxChunkSize(false)) {
      UploadDelivers(r.parts, false);
    }
  }

  /** From the form to the server: a finished upload, decoded if it was chunked, parses to exactly the parts given if
      and only if every part is printable and the delimiter stands in no content. */
  lemma MultipartUploadDelivers(fields: seq<FormPart>, boundary: seq<byte>, r: Prepared)
    ensures
      r.Parts? && r.Whole() == Render(boundary, fields) && Completes(r.parts, MaxChunkSize(r.contentLength.None?)) &&
      CR !in boundary ==>
        var received := OnArrival(NewUpload(r.parts, r.contentLength.None?).Total(), r.contentLength.None?);
        received.Some? &&
        (ParseForm(boundary, received.value) == Some(ReceivedAll(fields)) <==>
         AllPrintable(fields) && NoDelimiter(boundary, fields))
  {
    hide ParseForm, Render, Decode, NoDelimiter, AllPrintable, Wire;
    if r.Parts? && r.Whole() == Render(boundary, fields) && Completes(r.parts, MaxChunkSize(r.contentLength.None?)) &&
       CR !in boundary {
      UploadDelivers(r.parts, r.contentLength.None?);
      FormRoundTripIff(boundary, fields);
    }
  }

  /** What the server makes of the bytes on the wire. */
  function OnArrival(sent: seq<byte>, chunked: bool): Option<seq<byte>> {
    if chunked then Decode(sent) else Some(sent)
  }

  /** A length cast to 32 bits is the length of all the data exactly below 2^32 bytes. */
  lemma CastKeepsIff(data: seq<byte>)
    ensures [] + data[..|data| % U32_LIMIT] == data <==> |data| < U32_LIMIT
  {
    if |data| < U32_LIMIT {
      assert data[..|data|] == data;
    } else {
      assert |data[..|data| % U32_LIMIT]| < |data|;
    }
  }

  /** The async client's `request` up to the response's headers. A body that is uploaded in parts arrives as it was
      meant; one that is sent whole arrives exactly when it is shorter than 2^32 bytes, which no form and no multipart
      body is checked for. Bytes above 2^32 - 1 go out under their length; a body with streams goes out in chunks
      exactly when one of them has no length, and otherwise under a length that is right if theirs are; the system is
      told it unless it exceeds 32 bits. Either way the context is left as the response starts from. */
  method SendRequest(ctx: RequestContext, handle: RequestHandle, body: Option<Body>, streamLen: Source -> Option<nat>,
                     boundary: seq<byte>)
    returns (r: UploadResult, chunked: bool, advertised: Option<nat>)
    requires ctx.View() == NEW_CTX && handle.sent == []
    modifies ctx, handle
    ensures SentWhole(body) ==> r == Uploaded && !chunked
    ensures SentWhole(body) ==>
              (OnArrival(handle.sent, chunked) == Some(Meaning(body, boundary)) <==>
                  |Meaning(body, boundary)| < U32_LIMIT)
    ensures !SentWhole(body) && r == Uploaded ==> OnArrival(handle.sent, chunked) == Some(Meaning(body, boundary))
    ensures body.Some? && body.value.BytesBody? && r == Uploaded ==>
              OnArrival(handle.sent, chunked) == Some(Meaning(body, boundary))
    ensures r == Uploaded ==> ctx.state == HeadersReceived && ctx.error.None? && NothingParked(ctx)
    ensures handle.mode == WithBody <==>
            BodyStreams(body) == [] && (body.Some? && body.value.BytesBody? ==> |body.value.content| <= 0xFFFF_FFFF)
    ensures chunked <==> SomeUnsized(body, streamLen)
    ensures advertised.None? <==> chunked
    ensures LengthsHonoured(body, streamLen) && advertised.Some? ==>
              advertised.value == |Meaning(body, boundary)| &&
              (!SentWhole(body) && r == Uploaded ==> |handle.sent| == advertised.value)
    ensures !SentWhole(body) ==>
              handle.mode ==
              ToFollow(if chunked || advertised.value > 0xFFFF_FFFF then 0xFFFF_FFFF else advertised.value)
    ensures (r == WriteFailed ==> !Sound(old(handle.turns))) && (r == Waiting ==> handle.turns == [])
  {
    hide BodyStreams, SomeUnsized, LengthsHonoured, AllSized, Honoured, Wire, Decode;
    SentWholeIff(body);
    NoStreamIsUnsized(body, streamLen);
    var prepared := PrepareBody(body, streamLen, boundary);
    ctx.SetBody(if prepared.Complete? then Owned(prepared.data) else Borrowed([]));
    if prepared.Parts? {
      handle.SendHeaders(prepared.contentLength);
      PreparedLength(body, streamLen, prepared.parts);
    } else {
      handle.Send(ctx.buffer.bytes);
      CastKeepsIff(ctx.buffer.bytes);
    }
    ctx.SetSendComplete();
    var headersSent := ctx.PollForState({HeadersSent}, 0);
    chunked, advertised := false, prepared.BodyLen();
    r := Uploaded;
    if prepared.Parts? {
      chunked := advertised.None?;
      r := PollStreamUpload(ctx, handle, prepared.parts, chunked);
      if r != Uploaded {
        return;
      }
      UploadDelivers(prepared.parts, chunked);
    }
    ctx.TransitionState(HeadersReceived);
    var headersReceived := ctx.PollForState({HeadersReceived}, 0);
  }
}
