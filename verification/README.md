# Nyquest: models and proofs

Nyquest is one HTTP client interface over several platform stacks. This project models the logic of its
backends that frames, pumps, queues and hands requests between threads, and proves what that logic is for.

| files | what they model |
|---|---|
| Bytes, Streams | byte strings; request streams whose reads pend, fail or give any length |
| ChunkedCoding, StreamWriter, StreamUpload | the WinHTTP upload: the part writer over one reusable buffer, chunks framed in place, the blocking and async write loops, and a decoder for section 7.1 of RFC 9112 |
| Multipart, MultipartParse | the multipart generator, and a parser for section 5.1.1 of RFC 2046 and section 4 of RFC 7578 |
| PreparedBody | how a WinHTTP request body is prepared, and the whole way from a request to the server |
| WinHttpContext, WinHttpWait, WinHttpResponse | the shared context of async WinHTTP, a future that waits for one of its states, and the response: polls and system callbacks |
| BodyCollect, ReqwestBody | collecting a response under a size limit, in three backends |
| CurlHeaders, CurlReceive, CurlPauses | header lines and receive back-pressure of the curl async backend, alone and together with the upload |
| CurlUpload, CurlStreams | its upload pull: curl's callbacks, the client's streams and the state between them, for one stream and for all of a request |
| CurlLoop, CurlLoopThread, CurlLoopSafety, CurlLoopResults, CurlLoopFates, CurlLoopRuns, CurlLoopEffects, CurlLoopStarts, CurlLoopLocks | its loop: the shared task queue, the slab of easies, the restart of a loop, what its steps do, what becomes of requests that wait or are abandoned, runs that end badly, and the order of its mutexes |
| InputQueue, QueueWriter | NSURLSession uploads: a bounded ring queue and the writer that stages parts into it |
| FormEncoding, FormParse | curl form bodies, and a parser for section 5.1 of the WHATWG URL Standard |
| CurlShare, CurlWaker, EasySlot | three lock and ownership protocols of the curl backend |

Objects that the source updates in place are classes whose methods are proved against functions on values. Where
several threads or callbacks meet, the same functions are the steps of a machine, one step per critical section, and
the main results speak about every run of it. Foreign calls are steps with stated assumptions.

Some properties one would expect do not hold of the code. Each of these has a run or an input that shows it, and the
exact condition under which the code does meet the property:

- the async WinHTTP write loop never finishes a range of 2^32 bytes or more (`StreamUpload.AsyncWriteFinishesIff`), and
  a body that is sent whole arrives exactly below that length (`PreparedBody.SendRequest`);
- a multipart form is read back exactly when no name holds a quote or a backslash, no printed string a CRLF
  and no content the delimiter (`MultipartParse.FormRoundTripIff`);
- a WinHTTP response that has reported an error leaves every later poll pending (`WinHttpResponse.PendingIsAwaitedIff`),
  and an error that comes between the two sections of a poll for a state does not wake it (`WinHttpWait.WaitIsAttendedIff`);
- a blocking WinHTTP response with the largest `usize` as its limit collects nothing
  (`BodyCollect.WinHttpBlockingKeepsTheLimitIff`);
- a reqwest body ends at its first empty frame (`ReqwestBody.CollectsTheBodyIff`), and a read into an empty buffer can
  lose bytes (`ReqwestBody.EmptyReadKeepsAllIff`);
- a curl response with two final header blocks, such as 103 and 200, can strand its reader
  (`CurlReceive.StrandsIffTwoFinalBlocks`), and its headers are those of all its blocks
  (`CurlHeaders.HeadersAreTheLastBlocksIff`);
- a curl upload that seeks while bytes are buffered sends them again (`CurlUpload.CurlGetsTheStream`), and one whose
  response is taken before its stream was read to the end never ends (`CurlPauses.UploadEndsBehindTheResponseIff`);
- a request of the curl loop can wait for ever behind a success (`CurlLoopFates.WaitBeginsIff`,
  `CurlLoopFates.WaitsForEverIff`), an abandoned one can keep its loop alive
  (`CurlLoopFates.AbandonedEasyCanBeDroppedIff`), and a late unpause can reach another request
  (`CurlLoopResults.UnpauseReachesItsOwnIff`);
- a failed query and its request's sender can block each other (`CurlLoopLocks.WaitersGoOnIff`);
- an NSURLSession upload can answer a read with 0 before its end (`QueueWriter.ZeroIsTheEndIff`);
- a thread that locks a datum of curl's share handle again, or another one of its slot, waits for itself
  (`CurlShare.WaitsForItselfIff`);
- a blocking curl client whose easy was lost panics for ever (`EasySlot.PoisonedIff`).

## Model

| member | source | states |
|---|---|---|
| Streams.Source.Poll | backends/winhttp/src/stream/writer.rs:68-73 | A read gives a front of what the stream holds, at most the buffer's length; it gives nothing to a non-empty buffer only at the end; a read that pends or fails takes nothing. |
| Bytes.HexDigitsAre | backends/winhttp/src/stream/writer.rs:127 | The sixteen hexadecimal digits: printed in upper case, read in either. |
| Bytes.CaseIsIgnored | backends/curl/src/async.rs:58 | A name matches another exactly when they differ in the case of letters at most. |
| ChunkedCoding.HexRoundTrip | backends/winhttp/src/stream/writer.rs:125-129 | The printed size consists of hex digits and parses back to the size, for every size. |
| ChunkedCoding.HexSays | backends/winhttp/src/stream/writer.rs:127 | A size is printed digit by digit, most significant first, in upper case. |
| ChunkedCoding.ChunkSays | backends/winhttp/src/stream/writer.rs:83-91 | A chunk and the last chunk, byte for byte. |
| ChunkedCoding.HexLength | backends/winhttp/src/stream/writer.rs:125-129 | The size prints in at most k digits exactly when it is below 16^k. |
| ChunkedCoding.FrameTextFits | backends/winhttp/src/stream/writer.rs:125-129 | The frame text fits the 12-byte scratch buffer exactly when the chunk is at most 0xFFFFFFFF bytes: otherwise the `expect` fails. |
| ChunkedCoding.DecodeChunk | backends/winhttp/src/stream/writer.rs:83-91 | A decoder for section 7.1 of RFC 9112 takes one framed chunk off the front and gives back its data. |
| ChunkedCoding.DecodeChunks | backends/winhttp/src/stream/writer.rs:83-91 | Any list of non-empty chunks followed by the last-chunk decodes to the joined data. |
| ChunkedCoding.UnfinishedIsRejected | backends/winhttp/src/stream/writer.rs:84-87 | Chunks without the last-chunk are no complete body. |
| StreamWriter.TakeNextConserves | backends/winhttp/src/stream/writer.rs:59-81 | One poll moves a non-empty piece from the front of the content of the parts and leaves the rest; a poll that pends or fails takes nothing; each poll lowers the measure that bounds the loop. |
| StreamWriter.TakeNextKeepsPromises | backends/winhttp/src/stream/writer.rs:66-74 | Streams that never fail or never pend still do not behind a poll, so neither outcome appears. |
| StreamWriter.TakeNextSize | backends/winhttp/src/stream/writer.rs:65-73 | A piece longer than the writer's share of the buffer can only be a whole data part. |
| StreamWriter.PiecesConserve | backends/winhttp/src/stream/writer.rs:50-93 | Over a whole run, whatever the read lengths and pending polls, the pieces are non-empty and join to a prefix of the content, and to all of it when no read fails first. |
| StreamWriter.NeverFailsCompletes | backends/winhttp/src/stream/writer.rs:50-93 | A list whose streams never fail is written to its end. |
| StreamWriter.DataGoesWhole | backends/winhttp/src/stream/writer.rs:64 | Data parts go out whole, one piece each. |
| StreamWriter.StreamFillsTheRoom | backends/winhttp/src/stream/writer.rs:65-73 | A stream that fills the room it is given is read in pieces of all the room, but for the last. |
| StreamWriter.ReadSizes | backends/winhttp/src/stream/writer.rs:42-48 | A read asks for 16384 bytes, or for 16372 when chunked. |
| StreamWriter.RotateRight | backends/winhttp/src/stream/writer.rs:139 | Rotates the range in place and leaves everything outside it alone. |
| StreamWriter.RotationFrames | backends/winhttp/src/stream/writer.rs:138-140 | Rotating the size text in front of the data it stands behind makes exactly one chunk. |
| StreamWriter.OverwriteOrExtend | backends/winhttp/src/stream/writer.rs:132-137 | The text stands behind the data in both branches; the storage is replaced exactly when the text does not fit. |
| StreamWriter.DecorateForChunkedEncoding | backends/winhttp/src/stream/writer.rs:122-141 | In place, the range becomes the chunk of its data, with what stands before it kept; it fails exactly above 0xFFFFFFFF bytes. |
| StreamWriter.FramePiece | backends/winhttp/src/stream/writer.rs:83-92 | A piece is framed in its own buffer when the frame fits there; the range holds exactly its chunk. |
| StreamWriter.SmallSizes | backends/winhttp/src/stream/writer.rs:42-48 | A read of at most `CHUNK_BUFFER_SIZE - 12` bytes leaves room for its whole frame, so the buffer never grows. |
| StreamWriter.StreamWriter.TakePiece | backends/winhttp/src/stream/writer.rs:58-81 | The loop over the part list yields exactly the piece, the pending or failed read, or the end that the specification of one poll names. |
| StreamWriter.StreamWriter.PollTakeBuffer | backends/winhttp/src/stream/writer.rs:50-93 | One poll: the range holds the next piece, framed when chunked, or the last-chunk once the parts are all written; after that it is empty for ever; it panics exactly on a chunked piece above 0xFFFFFFFF bytes. |
| StreamWriter.StreamWriter.LastChunk | backends/winhttp/src/stream/writer.rs:84-87 | The last-chunk is written into the reusable buffer, which is handed out. |
| StreamWriter.StreamWriter.Advance | backends/winhttp/src/stream/writer.rs:108-119 | A sent buffer is taken back at full size exactly when a stream is next. |
| StreamUpload.RequestHandle.WriteData | backends/winhttp/src/handle/request.rs:356-379 | One system write takes some non-empty front of the data, or refuses and takes nothing, or reports an error after some of it. |
| StreamUpload.RequestHandle.Send | backends/winhttp/src/handle/request.rs:88-115 | Hands over the front of a whole body that its length, cast to 32 bits, covers. |
| StreamUpload.SaturatedFinishes | backends/winhttp/src/handle/request.rs:356-379 | Writes whose length is capped at 32 bits finish every range under any non-zero partial writes. |
| StreamUpload.TruncatedNeverFinishes | backends/winhttp/src/async/client.rs:217-233 | Writes whose length is cast to 32 bits never get below the last multiple of 2^32, however long they go on. |
| StreamUpload.AsyncWriteFinishesIff | backends/winhttp/src/async/client.rs:202-235 | Given a completion for every byte, the async write loop finishes a range exactly when it is shorter than 2^32 bytes. |
| StreamUpload.AsksForAll | backends/winhttp/src/handle/request.rs:356-366 | A range below 2^32 bytes is asked for whole by either client; of a longer one the blocking client asks for 2^32 - 1 bytes. |
| StreamUpload.WriteRange | backends/winhttp/src/blocking/client.rs:132-136 | The blocking inner loop sends every byte of the range once and in order, and never more than a prefix of it before a failure. |
| StreamUpload.WriteOnceAsync | backends/winhttp/src/async/client.rs:214-232 | One async write through the context: parked buffer, completion or error callback, awaited state and byte count agree; an error is taken by the wait. |
| StreamUpload.WriteAllDataAsync | backends/winhttp/src/async/client.rs:202-235 | The async inner loop sends a prefix of the range, and succeeds exactly when the completions cover all of it. |
| StreamUpload.StepConsistent | backends/winhttp/src/async/client.rs:185-196 | Each pass keeps the account of pieces written, pieces to come and bytes on the wire, and lowers the parts-and-bytes measure. |
| StreamUpload.StepIsPrefix | backends/winhttp/src/async/client.rs:185-196 | What is on the wire, also with the next range, is always a prefix of the whole upload. |
| StreamUpload.SendStreamingRequest | backends/winhttp/src/blocking/client.rs:103-141 | The blocking upload terminates; unless a write fails, it succeeds exactly when no stream fails and every chunk size fits, and then the wire holds the whole upload. |
| StreamUpload.PollStreamUpload | backends/winhttp/src/async/client.rs:176-198 | The async upload terminates; given enough completions and no failure, it succeeds exactly when no stream fails, every chunk size fits and no range reaches 2^32 bytes, and then the wire holds the whole upload. |
| StreamUpload.UploadDelivers | backends/winhttp/src/stream/writer.rs:50-141 | A finished chunked upload decodes to the content of the parts, and a finished unchunked one is that content. |
| StreamUpload.LastChunkIsLast | backends/winhttp/src/stream/writer.rs:75-87 | What is out before the last-chunk is refused by the decoder: the last-chunk appears once, and last. |
| Multipart.EscapedHeaderIsClean | backends/winhttp/src/multipart.rs:19-29 | An escaped header holds no line break, and its key no colon. |
| Multipart.CleanHeaderIsKept | backends/winhttp/src/multipart.rs:19-29 | Escaping changes nothing in a header without those characters. |
| Multipart.EscapesByteByByte | backends/winhttp/src/multipart.rs:19-29 | Escaping goes byte by byte: in a key a colon becomes `%3A`, in key and value a CR or an LF becomes `\n`, and every other byte stays. |
| Multipart.CleanedAt | backends/winhttp/src/multipart.rs:102-107 | Cleaning a filename puts an underscore for each quote, backslash and slash, and changes no other byte. |
| Multipart.CleanFilenameIsKept | backends/winhttp/src/multipart.rs:102-107 | A filename without those three is sent unchanged. |
| Multipart.HeadSays | backends/winhttp/src/multipart.rs:90-128 | A part's head and the closing delimiter, byte for byte around its name, cleaned filename, content type and headers. |
| Multipart.EstimateOfGroup | backends/winhttp/src/multipart.rs:47-68 | The estimate of a group of parts up to a stream always includes the closing delimiter. |
| Multipart.HeadLength | backends/winhttp/src/multipart.rs:32-43 | Without escapes, a part's delimiter line, headers and blank line with a filename are exactly as long as estimated, and 13 bytes shorter without. |
| Multipart.AppendHead | backends/winhttp/src/multipart.rs:92-128 | The appends print exactly the delimiter line and the header lines of the part. |
| Multipart.AppendGroup | backends/winhttp/src/multipart.rs:91-156 | The inner loop appends the rendering of the group and stops at its stream, if it has one. |
| Multipart.RenderSplits | backends/winhttp/src/multipart.rs:90-158 | The simple rendering splits at a group boundary. |
| Multipart.GenerateMultipartBody | backends/winhttp/src/multipart.rs:74-167 | The grouped loop says the same bytes as the simple per-part rendering with the closing delimiter, alternates data and streams with length 2 x streams + 1, keeps the streams in order, and without escapes stays within the reserved capacities. |
| MultipartParse.DelimiterDoesNotOverlap | backends/winhttp/src/multipart.rs:92-95 | Behind content without the delimiter, the first occurrence of the delimiter is its own: it cannot overlap itself. |
| MultipartParse.DelimiterInContent | backends/winhttp/src/multipart.rs:137-140 | With the delimiter in the content, a parser finds it too early. |
| MultipartParse.LinesRoundTrip | backends/winhttp/src/multipart.rs:97-128 | Splitting joined lines at CRLF up to the blank line gives the lines back. |
| MultipartParse.HeaderRoundTrip | backends/winhttp/src/multipart.rs:119-125 | A printed header parses to its key and value. |
| MultipartParse.LinesBreakIff | backends/winhttp/src/multipart.rs:97-116 | A part's two fixed lines hold a CRLF exactly when its name, its filename or its content type does. |
| MultipartParse.CleaningKeepsLines | backends/winhttp/src/multipart.rs:102-110 | Cleaning a filename keeps its length, removes every quote and backslash, and neither adds nor removes a CRLF. |
| MultipartParse.QuotedNameIff | backends/winhttp/src/multipart.rs:98-100 | A name printed between quotes is read back by a quoted-string reader, whatever follows, exactly when it holds no quote and no backslash. |
| MultipartParse.FieldRoundTrip | backends/winhttp/src/multipart.rs:97-128 | A part whose name has no quote and no backslash is read back from its header lines with its name, cleaned filename, content type and headers. |
| MultipartParse.BrokenNameIsSeen | backends/winhttp/src/multipart.rs:97-111 | With a quote or a backslash in the name, or a CRLF in the name or the filename, another name is read back, if any. |
| MultipartParse.BrokenPartIsSeen | backends/winhttp/src/multipart.rs:97-128 | A part with such a string, or a CRLF in its content type, is read back with another name or content type, if at all, whatever follows it. |
| MultipartParse.PartsRoundTripIff | backends/winhttp/src/multipart.rs:90-163 | For all parts, parsing what stands behind the opening delimiter gives them back exactly when no name holds a quote or a backslash, no name, filename or content type a CRLF, and no content the delimiter. |
| MultipartParse.FormRoundTripIff | backends/winhttp/src/multipart.rs:74-167 | For every form, parsing the whole of it by section 5.1.1 of RFC 2046 and section 4 of RFC 7578 gives back the parts, with cleaned filenames and headers, exactly under that condition. |
| MultipartParse.CleanFormComesBack | backends/winhttp/src/multipart.rs:74-167 | A form in which nothing is cleaned or escaped comes back as it was given, filenames and headers included, under the condition of the round trip. |
| MultipartParse.SpecialNameIsLost | backends/winhttp/src/multipart.rs:98-100 | A form whose one part is named by a quote, or by a backslash, is not read back. |
| PreparedBody.SumLensIsContent | backends/winhttp/src/request.rs:207-213 | The summed length is known exactly when every stream is sized, and is then the content's length if the streams honour theirs. |
| PreparedBody.SplitContent | backends/winhttp/src/request.rs:147-154 | A long content is cut into non-empty pieces of at most u32::MAX bytes that join to it. |
| PreparedBody.Collapse | backends/winhttp/src/request.rs:176-206 | Gathering the leading data keeps the content and the streams in order. |
| PreparedBody.PrepareMultipart | backends/winhttp/src/request.rs:170-219 | A multipart form becomes one whole exactly when it has no streams; otherwise content, streams and advertised length are right. |
| PreparedBody.PrepareBody | backends/winhttp/src/request.rs:129-238 | Whatever form it chooses, the prepared body says the request's bytes; a length is advertised exactly when all streams are sized, and is right when they honour it. |
| PreparedBody.AdvertisedLengthIsSent | backends/winhttp/src/request.rs:31-37 | The advertised length is the number of bytes an unchunked upload puts on the wire. |
| PreparedBody.MultipartUploadDelivers | backends/winhttp/src/request.rs:170-219 | From form to server: a finished upload, decoded if chunked, parses to exactly the parts given, under exactly the condition of the round trip. |
| PreparedBody.SendRequest | backends/winhttp/src/async/client.rs:67-141 | The async client's request up to the response's headers: a body uploaded in parts arrives as it was meant; one sent whole does exactly below 2^32 bytes, which is checked for plain bytes only. A body is chunked exactly when one of its streams has no length; otherwise, with lengths that are honoured, the advertised one is the number of bytes on the wire. The context is left as the response starts from. |
| WinHttpContext.RequestContext.TransitionState | backends/winhttp/src/async/context.rs:79-83 | Sets the state and wakes the registered waker. |
| WinHttpContext.RequestContext.SetSendComplete | backends/winhttp/src/async/context.rs:85-90 | Drops the body, enters `HeadersSent`, wakes. |
| WinHttpContext.RequestContext.SetWriteComplete | backends/winhttp/src/async/context.rs:92-97 | Adds the written bytes to the range's end, enters `WriteComplete`, wakes. |
| WinHttpContext.RequestContext.SetReadComplete | backends/winhttp/src/async/context.rs:102-112 | Completes on 0 bytes, otherwise exposes the filled range; wakes. |
| WinHttpContext.RequestContext.SetError | backends/winhttp/src/async/context.rs:115-119 | Stores the error without changing the state, wakes. |
| WinHttpContext.RequestContext.SetBody | backends/winhttp/src/async/context.rs:127-129 | Parks the body without touching the state. |
| WinHttpContext.RequestContext.SetBytesAvailable | backends/winhttp/src/async/context.rs:162-164 | Records the available count as the range's end, without a wake. |
| WinHttpContext.RequestContext.PrepareForWriting | backends/winhttp/src/async/context.rs:140-145 | Re-enters `HeadersSent` with an empty range. |
| WinHttpContext.RequestContext.TakeWriteBuffer | backends/winhttp/src/async/context.rs:148-152 | Gives the buffer back and leaves an empty one. |
| WinHttpContext.RequestContext.TakeError | backends/winhttp/src/async/context.rs:122-124 | Hands the stored error out and leaves none, every other field kept. |
| WinHttpContext.RequestContext.LookAtState | backends/winhttp/src/async/state_fut.rs:36-46 | Reports an expected state with the range's end, else leaves the waker of this poll. |
| WinHttpContext.RequestContext.PollForState | backends/winhttp/src/async/state_fut.rs:28-47 | Both sections with nothing between: a stored error is taken first, then an expected state is reported with the range's end, else the waker is left. |
| WinHttpWait.Call | backends/winhttp/src/async/context.rs:79-119 | Each callback method of the context is a step of the machine below. |
| WinHttpWait.StepKeeps | backends/winhttp/src/async/state_fut.rs:28-47 | Every section and every callback keeps the tie between the error, the waker and what has come since the poll began. |
| WinHttpWait.WaitIsAttendedIff | backends/winhttp/src/async/state_fut.rs:28-47 | With callbacks between the sections, in every run: a waiting future has been woken, or there is nothing to report, exactly unless its poll has just ended and an error came between that poll's two sections; an expected state is never missed. |
| WinHttpWait.ErrorIsMissed | backends/winhttp/src/async/state_fut.rs:33-44 | Such a run, for any context without an error in an unexpected state. |
| WinHttpResponse.WinHttpAsyncResponse.PollConsumeData | backends/winhttp/src/async/response.rs:69-131 | One poll: outcome, started operation and new context are those of the machine's poll step. |
| WinHttpResponse.PollGivesFront | backends/winhttp/src/async/response.rs:110-125 | A poll gives out the front of what was available, as much as its caller has room for, and leaves the rest; one that gives nothing out found nothing available. |
| WinHttpResponse.PollKeepsMatched | backends/winhttp/src/async/response.rs:69-131 | A poll keeps state, range and running operation matched, and does not reach its `unreachable!` or leave the buffer's bounds. |
| WinHttpResponse.CallbackKeepsInv | backends/winhttp/src/async/callback.rs:92-148 | Every callback keeps all of the machine's invariants. |
| WinHttpResponse.HandleDataAvailable | backends/winhttp/src/async/callback.rs:92-112 | The two critical sections of the callback take the context where the machine's two steps do. |
| WinHttpResponse.HandleReadComplete | backends/winhttp/src/async/callback.rs:115-122 | With the system's bytes in the buffer, the callback takes the context where the machine's step does. |
| WinHttpResponse.HandleRequestError | backends/winhttp/src/async/callback.rs:136-149 | So does the error callback. |
| WinHttpResponse.Drive | backends/winhttp/src/async/response.rs:69-131 | Through any schedule of polls and callbacks, the methods of the shared context take it exactly where the machine's run ends. |
| WinHttpResponse.RunKeepsInv | backends/winhttp/src/async/response.rs:69-131 | So does every interleaving of polls and callbacks. |
| WinHttpResponse.ReadsAreFaithful | backends/winhttp/src/async/response.rs:69-131 | In every interleaving the bytes given out are a prefix of the body, no poll crashes, and nothing given to a non-empty buffer means the whole body was. |
| WinHttpResponse.PendingIsAwaitedIff | backends/winhttp/src/async/response.rs:126-129 | While the future is pending, an operation is under way or its waker was woken, exactly as long as no error has been reported. |
| WinHttpResponse.ErrorIsFinal | backends/winhttp/src/async/response.rs:75-77 | After a reported error every later poll is pending, for ever, and nothing more is given out. |
| WinHttpResponse.ErrorIsTold | backends/winhttp/src/async/response.rs:74-77 | In every run, the error that the system reports is what the next poll tells; a poll fails otherwise only when the system does not start its operation; a stored error came from a callback. |
| WinHttpResponse.AnnouncedIsAskedFor | backends/winhttp/src/async/response.rs:79-109 | In every run, what the system announces is asked for in full, with room for it. |
| WinHttpResponse.EndCanBeReachedIff | backends/winhttp/src/async/response.rs:66-133 | In every run, the body can still be read to its end exactly as long as no error was reported. |
| WinHttpResponse.ErrorStrandsTheFuture | backends/winhttp/src/async/response.rs:75-77 | Such a run: a failed query is reported once, then a poll waits for nothing. |
| BodyCollect.WinHttpBlockingBytes | backends/winhttp/src/blocking/response.rs:100-132 | The loop keeps result length plus remaining limit constant although a read may fill more than asked; unless a query or read fails, the result is decided by the starting limit alone, whatever the reads. |
| BodyCollect.WinHttpBlockingKeepsTheLimitIff | backends/winhttp/src/blocking/response.rs:102-105 | The result is the body within the limit, for every limit but the largest `usize`, whose increment wraps to 0 so that nothing is collected. |
| BodyCollect.CurlBytes | backends/curl/src/async.rs:132-150 | Ok exactly when the body is within the limit and no wait fails, and then all of it, for every split into pieces. |
| BodyCollect.WinHttpAsyncBytes | backends/winhttp/src/async/response.rs:169-192 | Ok exactly when the body is within the limit and no poll fails, and then all of it, for every split into non-empty pieces. |
| ReqwestBody.BodySplits | backends/reqwest/src/response.rs:106-113 | The body is what can be read before the first empty or non-data frame, and then what stands behind it. |
| ReqwestBody.ReqwestResponse.PollReceiveDataFrame | backends/reqwest/src/response.rs:106-113 | Takes one frame; an empty frame, trailers and the end all give nothing. |
| ReqwestBody.ReqwestResponse.CollectAllBytes | backends/reqwest/src/response.rs:76-93 | Collects exactly what stands before the first empty or non-data frame, or fails on the limit or a broken frame. |
| ReqwestBody.ReqwestResponse.WriteTo | backends/reqwest/src/response.rs:96-104 | Moves a front of the buffer to the caller. |
| ReqwestBody.ReqwestResponse.PollRead | backends/reqwest/src/async.rs:187-205 | One read: answer, bytes given, buffer and frames left are those of the specification. |
| ReqwestBody.ReadKeepsAll | backends/reqwest/src/async.rs:187-205 | With a non-empty buffer no read loses or repeats a byte, and it gives nothing exactly when nothing was readable. |
| ReqwestBody.EmptyReadKeepsAllIff | backends/reqwest/src/response.rs:96-104 | With an empty buffer a read keeps all exactly when a pending poll or an error comes first, or, with nothing buffered, behind the first frame, or when nothing was readable. |
| ReqwestBody.EmptyReadLosesAByte | backends/reqwest/src/response.rs:120-128 | Such a read: a buffered byte is overwritten although the poll only pends. |
| ReqwestBody.CollectsTheBodyIff | backends/reqwest/src/response.rs:76-113 | The collection is the body within the limit exactly when no data stands behind the first empty or non-data frame (or the limit is exceeded before it). |
| ReqwestBody.CollectsUpToTheStop | backends/reqwest/src/response.rs:76-113 | In front of the first empty, trailing or broken frame all data are collected unless they exceed the limit; a broken one ends the collection with an error. |
| ReqwestBody.ReadTakesInTurn | backends/reqwest/src/async.rs:177-204 | A read with room gives what is buffered, as much as there is room for; only without takes it a frame, and pends, fails or ends exactly when that frame says so. |
| ReqwestBody.EmptyFrameTruncates | backends/reqwest/src/response.rs:112 | Data behind an empty frame is lost. |
| CurlHeaders.RequestState.PushHeaderData | backends/curl/src/state.rs:11-38 | One header line: the new fields and whether a final header block ended are those of the specification. |
| CurlHeaders.RequestState.WriteData | backends/curl/src/state.rs:40-44 | Finishes the header and appends the data. |
| CurlHeaders.DecimalRoundTrip | backends/curl/src/state.rs:25-31 | A printed status code parses back to itself. |
| CurlHeaders.SplitWordAt | backends/curl/src/state.rs:23 | Splitting at the first whitespace byte gives the word and all that follows. |
| CurlHeaders.StatusLinePushed | backends/curl/src/state.rs:23-35 | A status line leaves exactly its code and whether its reason is a proxy's answer to CONNECT. |
| CurlHeaders.FieldsPushed | backends/curl/src/state.rs:19-21 | Field lines are kept in order without their line ends, and end nothing. |
| CurlHeaders.BlockPushed | backends/curl/src/state.rs:11-38 | A whole header block adds exactly its fields and ends the header exactly when it is neither one of the listed codes nor an answer to CONNECT. |
| CurlHeaders.IsFinalIff | backends/curl/src/state.rs:12-18 | A block ends the header unless its code is 100, 301, 302, 303, 307 or 308 or its reason says `connection established`. |
| CurlHeaders.StatusWordsPushed | backends/curl/src/state.rs:22-36 | Any line that is neither blank nor a field: its second word, if it is a number, becomes the code; what stands behind it decides whether it answers CONNECT. |
| CurlHeaders.ParseU16Is | backends/curl/src/state.rs:25-30 | Exactly the numbers below 65536 are taken for a code, with a plus sign or without. |
| CurlHeaders.FieldPushed | backends/curl/src/state.rs:19-21 | A field line is kept but for a CRLF at its end. |
| CurlHeaders.ValueIsUnderItsName | backends/curl/src/async/loop.rs:393-400 | A field's value, without the spaces in front of it, is found under its name in any case, and under no other. |
| CurlHeaders.BlocksPushed | backends/curl/src/state.rs:11-38 | A list of header blocks adds the fields of all of them, redirects and interim answers included, ends the header once per final block, and leaves the code of the last. |
| CurlHeaders.HeadersAreTheLastBlocksIff | backends/curl/src/async/loop.rs:393-400 | The response's values under a header name are those of its last block exactly when no earlier block has a field of that name. |
| CurlHeaders.RedirectKeepsItsLocation | backends/curl/src/state.rs:19-21 | Behind any redirect, its Location is still among the response's headers. |
| CurlReceive.SharedRequest.Header | backends/curl/src/async/handler.rs:46-64 | A line that ends a final header block pauses receiving. |
| CurlReceive.SharedRequest.Write | backends/curl/src/async/handler.rs:30-44 | A chunk is taken whole when the buffer is empty; otherwise receiving is paused and nothing taken. |
| CurlReceive.SharedRequest.PollBytes | backends/curl/src/async/loop.rs:98-120 | Gives buffered bytes, else the result, else queues one unpause per wait; the flag, queue and result are those of the machine's poll. |
| CurlReceive.DeliverConserves | backends/curl/src/async/handler.rs:30-64 | A callback loses and repeats nothing, and buffers one write at most. |
| CurlReceive.ReaderGetsTheBody | backends/curl/src/async/loop.rs:98-120 | In every run, consumed bytes, buffer and undelivered chunks are the body, the buffer is part of one write, and the end is reported only behind the last byte. |
| CurlReceive.StrandedForEver | backends/curl/src/async/loop.rs:112-119 | A reader that waits, paused, with an empty buffer and no unpause queued, gets nothing more in any run without a failure or help from the upload, if callbacks are left or the end is not reported. |
| CurlReceive.StepFlows | backends/curl/src/async/loop.rs:415-427 | While no finished header is ended again, a performed unpause is never undone behind the reader's back. |
| CurlReceive.StrandsIffReopened | backends/curl/src/async/handler.rs:52-60 | Some run strands the reader, with callbacks left when a body follows, exactly when a line of the response ends a header that was already finished. |
| CurlReceive.StrandsIffTwoFinalBlocks | backends/curl/src/state.rs:12-18 | For a response of whole header blocks and a body, that is exactly when two of its blocks are final. |
| CurlReceive.EarlyHintsStrand | backends/curl/src/state.rs:13 | 103 Early Hints in front of 200 OK is such a response. |
| CurlReceive.BodyCanBeRead | backends/curl/src/async/loop.rs:98-120 | In every run without a failure of a response that ends no header twice, the reader is told no error and can still be told the end. |
| CurlReceive.BufferedIsGiven | backends/curl/src/async/loop.rs:104-108 | A poll gives as many of the buffered bytes as its caller has room for. |
| CurlReceive.RefusedChunkPauses | backends/curl/src/async/handler.rs:35-43 | A chunk that finds bytes buffered is refused, which pauses receiving and changes nothing else. |
| CurlReceive.FailureIsTold | backends/curl/src/async/loop.rs:109-112 | A failure of the transfer is what the next poll of an empty buffer tells. |
| CurlReceive.UnpausesAreFew | backends/curl/src/async/loop.rs:113-117 | A waiting reader queues one unpause, however often it is polled: in every run at most as many as polls were answered, and one. |
| CurlReceive.UnpauseErrorCanBeLost | backends/curl/src/async/loop.rs:420-486 | A run in which an unpause fails, the transfer goes on, and its success overwrites the error before the reader has looked. |
| CurlPauses.RunSplits | backends/curl/src/curl_ng/easy/raw.rs:63-80 | A run of both directions, whose pause calls set one absolute mask, is a run of each with the other's masks as events. |
| CurlPauses.MasksAreAbsolute | backends/curl/src/curl_ng/easy/raw.rs:63-80 | Either unpause leaves both directions unpaused; the pause at the end of a header leaves sending unpaused. |
| CurlPauses.BothDirectionsConserve | backends/curl/src/curl_ng/easy/raw.rs:63-80 | Whatever the directions do to each other's pauses, neither loses, repeats or invents a byte; a paused upload has a request of its own or an unpause on its way. |
| CurlPauses.StrandsIffReopened | backends/curl/src/async/pause.rs:19-22 | The shared mask neither saves nor adds a response that can strand its reader. |
| CurlPauses.StrandedIsSavedIff | backends/curl/src/async.rs:165-173 | In every run, a stranded reader with callbacks left can be saved, short of a failure, exactly when an unpause of the upload is already queued. |
| CurlPauses.ResponseStopsTheUpload | backends/curl/src/async.rs:165-173 | Once the client has the response, curl gets only bytes that were held before, and is told no end that had not been read. |
| CurlPauses.UploadEndsBehindTheResponseIff | backends/curl/src/async.rs:165-173 | In every run, an upload that has not ended when the response is taken can still end exactly when its stream had been read to the end. |
| CurlUpload.SharedStreamState.Read | backends/curl/src/async/read_task.rs:211-234 | Gives curl the front of the buffer, asks for more and pauses, or reports end or failure, as specified; the caller's buffer is written only with what is given. |
| CurlUpload.SharedStreamState.Seek | backends/curl/src/async/read_task.rs:236-250 | Refuses unseekable and failed streams, else records the request, from the start, the end or here; the buffer is kept. |
| CurlUpload.BoxedStream.ReadInto | backends/curl/src/async/read_task.rs:153 | A ready read copies the next bytes of the stream and advances it. |
| CurlUpload.SharedStreamState.PollExecuteOne | backends/curl/src/async/read_task.rs:144-199 | One poll of the client's task: new state, failure and queued unpause are those of the specification. |
| CurlUpload.ReadKeeps | backends/curl/src/async/read_task.rs:211-234 | A read by curl keeps the account of bytes and leaves a paused transfer attended. |
| CurlUpload.PollKeeps | backends/curl/src/async/read_task.rs:144-199 | A poll by the client does too, and its `unreachable!` is not reached. |
| CurlUpload.CurlGetsTheStream | backends/curl/src/async/read_task.rs:144-250 | In every interleaving with seeks: what curl was given and what is held are what was buffered at the last seek and then the stream from there; at the end the pass was right exactly when that buffer was empty; a paused transfer always has a request or an unpause. |
| CurlUpload.SeekIsTakenIff | backends/curl/src/async/read_task.rs:236-250 | A seek is taken exactly from a stream that can seek and has not failed. |
| CurlUpload.SeekLeads | backends/curl/src/async/read_task.rs:171-194 | In every run, a taken seek and the next ready poll leave the stream at the offset counted from its start, its end or where it stood, and fail when that is outside. |
| CurlUpload.PassFromTheStart | backends/curl/src/async/read_task.rs:171-234 | Behind a seek to an offset, curl is given what stood in the buffer and then the content from there. |
| CurlUpload.AskedForIsRead | backends/curl/src/async/read_task.rs:150-163 | The client reads next what curl asked for, up to the room curl had, and queues an unpause. |
| CurlUpload.UploadCanEnd | backends/curl/src/async/read_task.rs:144-250 | In every run, an upload that has not failed and seeks only inside its stream can still be told the end. |
| CurlUpload.UploadIsComplete | backends/curl/src/async/read_task.rs:144-234 | Without a seek, curl is given a prefix of the stream, and all of it before it is told the end. |
| CurlUpload.SeekSendsScratch | backends/curl/src/async/read_task.rs:152 | A seek while a read is pending sends the read's zeroed scratch in front of the stream, whatever it holds. |
| CurlUpload.EmptyReadEndsTheUpload | backends/curl/src/async/read_task.rs:216-226 | In every run without a seek: a read into no room and the next ready poll end the upload with what had been given, which is the content exactly when everything had been read and given. |
| CurlUpload.EmptyReadLosesBytes | backends/curl/src/async/read_task.rs:216-226 | Such a run, for any content, in which a byte is held and lost. |
| CurlStreams.PollExecuteAll | backends/curl/src/async/read_task.rs:121-130 | The loop over a request's streams polls each in order up to the first failure; states, failure and queued unpauses are those of the specification. |
| CurlStreams.PassStopsAtFailure | backends/curl/src/async/read_task.rs:124-128 | A pass polls every stream up to the first that fails, and leaves those behind it alone. |
| CurlStreams.CurlGetsEachStream | backends/curl/src/async/read_task.rs:52-68 | For any number of streams under the transfer's one pause, in every interleaving: what curl has of each is a prefix of what was stale and its content, all of it at the end exactly when nothing was stale; a paused transfer has some stream's request or an unpause; no pass meets a failed stream. |
| CurlStreams.PausedGoesOn | backends/curl/src/async/read_task.rs:119-142 | In every run, a paused transfer without an unpause gets one from the next pass in which the streams are ready. |
| CurlStreams.EveryStreamCanEnd | backends/curl/src/async/read_task.rs:119-142 | In every run, as long as no stream has failed and each seeks only inside itself, curl can still be told the end of every stream. |
| CurlStreams.NothingFails | backends/curl/src/async/read_task.rs:144-199 | No stream fails before one of them is broken or seeks outside. |
| CurlLoopThread.SharedState.DispatchTask | backends/curl/src/async/loop.rs:175-183 | A task is queued behind the others exactly when the queue is still alive. |
| CurlLoopThread.SharedState.RunTask | backends/curl/src/async/loop.rs:348-451 | Each arm changes the slab, the queue and the requests as the machine's task step does. |
| CurlLoopThread.SharedState.DrainTasks | backends/curl/src/async/loop.rs:347-452 | The loop performs the swapped-out tasks in order, and terminates though it may queue new ones. |
| CurlLoopThread.DrainedIsARun | backends/curl/src/async/loop.rs:347-452 | Draining is a run of the machine with one step for each swapped-out task. |
| CurlLoopThread.SharedState.FailAll | backends/curl/src/async/loop.rs:461-473 | The loop over the slab gives the error to exactly the requests without a result. |
| CurlLoopThread.FailedAllAnswers | backends/curl/src/async/loop.rs:461-473 | Afterwards every request in the slab that had no result has the error under a token of its own, and nothing else is changed. |
| CurlLoopThread.FailedRoundIsARun | backends/curl/src/async/loop.rs:458-475 | A failed round is a run of the machine: one step for each token, and the loop leaves. |
| CurlLoopThread.SharedState.DropQueue | backends/curl/src/async/loop.rs:136-147 | The end of a queue gives each queued easy back to its own request and drops the handles of queued queries. |
| CurlLoopThread.Vacant | backends/curl/src/async/set.rs:24-26 | The key chosen for a new easy is vacant, and may be any vacant key. |
| CurlLoopSafety.StartKeeps | backends/curl/src/async/loop.rs:184-264 | Choosing a manager, submitting, collecting the token and renewing the manager keep the invariant. |
| CurlLoopSafety.UseKeeps | backends/curl/src/async/loop.rs:60-120 | So do asking for the response, taking it and reading its body. |
| CurlLoopSafety.LeaveKeeps | backends/curl/src/async/loop.rs:123-129 | So do returning the error and dropping the future or the response. |
| CurlLoopSafety.SendKeeps | backends/curl/src/async/loop.rs:266-306 | So does a sender that captures the manager and token, queues an unpause and lets go, with the manager locked meanwhile. |
| CurlLoopSafety.ConstructKeeps | backends/curl/src/async/loop.rs:349-364 | Adding an easy to the slab keeps the invariant, with any vacant token. |
| CurlLoopSafety.AnswerKeeps | backends/curl/src/async/loop.rs:381-409 | Answering a query with a response does. |
| CurlLoopSafety.FailedQueryKeeps | backends/curl/src/async/loop.rs:365-413 | Answering it with an error does, whoever holds its token. |
| CurlLoopSafety.DropHandleKeeps | backends/curl/src/async/loop.rs:444-446 | Dropping an easy does: only late unpauses of its request follow. |
| CurlLoopSafety.UnpauseKeeps | backends/curl/src/async/loop.rs:415-443 | A failing unpause does, whichever request its token names. |
| CurlLoopSafety.HeadFindsItsEasy | backends/curl/src/async/set.rs:32-34 | The first task's token names the easy of the request that queued it exactly unless it is a late unpause. |
| CurlLoopSafety.LastReferenceKeeps | backends/curl/src/async/loop.rs:136-147 | The end of a queue keeps the invariant. |
| CurlLoopSafety.TearKeeps | backends/curl/src/async/loop.rs:325-333 | The end of a loop's slab does. |
| CurlLoopSafety.FailOneKeeps | backends/curl/src/async/loop.rs:461-472 | Handing out the loop's error, one request at a time, does. |
| CurlLoopSafety.StepKeeps | backends/curl/src/async/loop.rs:34-498 | Every critical section of any client or loop thread keeps the invariant. |
| CurlLoopResults.EachEasyInOnePlace | backends/curl/src/async/loop.rs:123-147 | In every interleaving each easy is with its caller, in one queue (once), in one slab under one token or in its `EasyLost` slot, exactly one of these, until it is destroyed. |
| CurlLoopResults.TokensNameTheirOwnEasy | backends/curl/src/async/loop.rs:344-452 | While a loop runs, every live handle's id and every queued task's token but an `UnpauseSendHandle`'s look up the easy of their own request; that one's does exactly while its easy is in the slab, and always while its handle lives. |
| CurlLoopResults.UnpauseReachesItsOwnIff | backends/curl/src/async/loop.rs:428-443 | An `UnpauseSendHandle` that is performed reaches its own request's easy exactly when the handle had not been dropped as it was queued. |
| CurlLoopResults.LateMeansDroppedSinceCapture | backends/curl/src/async/loop.rs:266-306 | A sender captures its token while the handle lives; its unpause is late exactly when the handle has been dropped since. |
| CurlLoopResults.OneLoopRuns | backends/curl/src/async/loop.rs:234-264 | At most one loop runs at a time, and it is the one the manager hands out. |
| CurlLoopResults.LeavingLoopsAreSettled | backends/curl/src/async/loop.rs:458-494 | A loop leaves without an error only with an empty slab and no live handle; one that leaves with an error has given every started request of its own a result. |
| CurlLoopFates.WaitEndsIffError | backends/curl/src/async/loop.rs:69-80 | A waiting request whose handle the loop dropped has a result, gets no response, and its future can return exactly when that result is an error. |
| CurlLoopFates.WaitBeginsIff | backends/curl/src/async/loop.rs:365-414 | A wait behind a success begins exactly when the last reference to the queue goes with the query in it and the success reported, or when a success overwrites the error of a failed query before the future has returned it. |
| CurlLoopFates.WaitsForEverIff | backends/curl/src/async/loop.rs:415-446 | In every run, only giving up ends such a wait exactly when no unpause with its token stands before its `DropHandle` in a working loop's queue. |
| CurlLoopFates.ReachTask | backends/curl/src/async/loop.rs:344-497 | A working loop can bring any queued task to the front by itself, leaving the request alone. |
| CurlLoopFates.AbandonedEasyIsOnItsWayIff | backends/curl/src/async/loop.rs:123-129 | The easy of an abandoned request has a `DropHandle` or a query on its way exactly unless its handle never came to be or lies in a response nobody took. |
| CurlLoopFates.AnsweredQueryOrphansIff | backends/curl/src/async/loop.rs:406-413 | The query of an abandoned request makes an orphan exactly when it is answered; failed, it queues the `DropHandle`. |
| CurlLoopFates.OrphanBeginsIff | backends/curl/src/async/loop.rs:123-129 | In every run, a step makes an orphan exactly when the client gives up while its easy is in the slab and the handle not there yet or in a response, or when the loop takes in the easy, or answers the query, of a request given up before. |
| CurlLoopFates.AbandonedEasyCanBeDroppedIff | backends/curl/src/async/loop.rs:444-446 | An abandoned easy can leave the slab of a working loop, without a failure of that loop, exactly unless it is an orphan. |
| CurlLoopFates.OrphanKeepsTheLoop | backends/curl/src/async/loop.rs:489-494 | An orphan stays in the slab in every run; its loop never leaves unless it fails. |
| CurlLoopRuns.LostQueryWaitsForEver | backends/curl/src/async/loop.rs:461-474 | Such a run: the transfer succeeds, the response is asked for, the loop fails before it answers, and the client waits for ever. |
| CurlLoopRuns.OverwrittenErrorWaitsForEver | backends/curl/src/async/loop.rs:477-488 | Such a run with the loop going on: the query fails, then the transfer succeeds before the client has looked. |
| CurlLoopRuns.AbandonedWaitOrphans | backends/curl/src/async/loop.rs:201-216 | Such a run: the client gives up while it waits for its token. |
| CurlLoopRuns.AbandonedResponseOrphans | backends/curl/src/async/loop.rs:69-80 | Another: the client gives up after it has asked, and the loop answers. |
| CurlLoopRuns.TokensCanBeConfused | backends/curl/src/async/loop.rs:266-306 | A run with a late unpause whose token the slab has given to another request. |
| CurlLoopEffects.ResultsAreReported | backends/curl/src/async/loop.rs:344-488 | In every run, a failed query, a failed unpause, the loop's failure and the end of a transfer leave exactly the result they report, under the token of the request's easy; no other step gives a request a result. |
| CurlLoopEffects.ClientsDispatch | backends/curl/src/async/loop.rs:58-129 | A client's step puts the task that is its own behind the others, and leaves every other queue as it was. |
| CurlLoopEffects.LoopLeavesIff | backends/curl/src/async/loop.rs:489-494 | In every run, a loop whose round ends leaves exactly with an empty slab and behind its last call: a shutdown or an earlier round that ended empty, with no easy added since. |
| CurlLoopStarts.WaitingResolves | backends/curl/src/async/loop.rs:184-217 | A request that waits for its token can get one, or its easy back, whatever stage its loop is in. |
| CurlLoopStarts.EveryRequestCanStart | backends/curl/src/async/loop.rs:234-264 | In every run, a request that is not given up and has not been started can still be started. |
| CurlLoopLocks.StepKeeps | backends/curl/src/async/loop.rs:283 | Each mutex, the queue's and every request's, is owned exactly by the thread that stands between its lock and its release. |
| CurlLoopLocks.WaitersGoOnIff | backends/curl/src/async/loop.rs:98-129 | For any number of clients with the loop, in every run: every thread that waits for a mutex can go on exactly unless the loop, with a request's state locked, waits for the queue while that request's sender, with the queue locked, waits for the state. |
| CurlLoopLocks.BlockedForEver | backends/curl/src/async/loop.rs:368-412 | Those two wait for each other in every later run. |
| CurlLoopLocks.BlockBeginsIff | backends/curl/src/async/loop.rs:266-298 | It begins exactly when a query fails while its request's sender stands between its two locks, or when the sender locks the queue while the failed query stands between its own. |
| CurlLoopLocks.FailedQueryBlocks | backends/curl/src/async/loop.rs:381-412 | Such runs, for any number of requests and any of them. |
| InputQueue.ByteRing.PushBack | backends/nsurlsession/src/stream/ns_stream.rs:156-159 | Appends one byte to the contents of the ring, in place. |
| InputQueue.ByteRing.Extend | backends/nsurlsession/src/stream/ns_stream.rs:156-159 | Appends bytes to the contents of the ring, within its capacity. |
| InputQueue.ByteRing.Drain | backends/nsurlsession/src/stream/ns_stream.rs:275 | Removes bytes from the front of the contents. |
| InputQueue.DrainedRing | backends/nsurlsession/src/stream/ns_stream.rs:262-275 | Moving the head of a ring removes a front of its two slices joined, wrapped or not. |
| InputQueue.BufferSizes | backends/nsurlsession/src/stream.rs:9-14 | 32 KiB on macOS, 8 KiB elsewhere. |
| InputQueue.CopySlices | backends/nsurlsession/src/stream/ns_stream.rs:264-273 | The two-slice copy fills the buffer with the front of the slices joined. |
| InputQueue.InputStream.Write | backends/nsurlsession/src/stream/ns_stream.rs:133-161 | Queues as much as fits, marks the end on no data, and does nothing once broken: the FIFO step of the machine. |
| InputQueue.InputStream.WriteError | backends/nsurlsession/src/stream/ns_stream.rs:137-143 | A failed read breaks the queue. |
| InputQueue.InputStream.ReadMaxLength | backends/nsurlsession/src/stream/ns_stream.rs:253-280 | -1 exactly when the queue is broken and not locked, nothing while it is locked, and otherwise the front of the queue, as much as there is room for. |
| InputQueue.InputStream.CloseStream | backends/nsurlsession/src/stream/ns_stream.rs:210-217 | Replaces the queue by an empty one of capacity 0, unless it is broken. |
| InputQueue.InputStream.StreamStatus | backends/nsurlsession/src/stream/ns_stream.rs:232-244 | Not open, error, at the end exactly when the queue is empty and the end marked, else open. |
| QueueWriter.StageConserves | backends/nsurlsession/src/stream/writer.rs:53-83 | Staging keeps what remains to be written, and stages nothing only when nothing remains. |
| QueueWriter.StageKeepsPromises | backends/nsurlsession/src/stream/writer.rs:53-83 | Staging is held up only by a stream that is not ready, and fails only with one that fails. |
| QueueWriter.WriteFills | backends/nsurlsession/src/stream/ns_stream.rs:155-160 | A write takes everything or leaves the queue full. |
| QueueWriter.StreamWriter.constructor | backends/nsurlsession/src/stream/writer.rs:23-37 | Starts with the first data part staged, and a buffer exactly when there is a stream. |
| QueueWriter.StreamWriter.ShiftPart | backends/nsurlsession/src/stream/writer.rs:39-42 | Drops the first part and stages the next. |
| QueueWriter.StreamWriter.ReadFront | backends/nsurlsession/src/stream/writer.rs:73-82 | One read of the stream in front, into the buffer, stages exactly what was read. |
| QueueWriter.StreamWriter.StageNext | backends/nsurlsession/src/stream/writer.rs:53-85 | The loop over the parts ends as the specification of staging says, and terminates. |
| QueueWriter.StreamWriter.PollProgressOnce | backends/nsurlsession/src/stream/writer.rs:45-95 | Writes as much of the staged bytes as the queue takes and keeps the rest staged; a failed read breaks the queue. |
| QueueWriter.StreamWriter.Turn | backends/nsurlsession/src/stream/writer.rs:45-95 | Queue and remaining bytes, joined, are kept; the remaining bytes shrink by what is written; nothing is written only when the queue is full or all is written and the end marked. |
| QueueWriter.StreamWriter.PollProgress | backends/nsurlsession/src/stream/writer.rs:96-115 | Terminates; keeps queue and remaining bytes; reports no more parts only when all are queued and the end is marked, and otherwise stops only on a full queue or an unready stream. |
| QueueWriter.WriteConserves | backends/nsurlsession/src/stream/ns_stream.rs:146-160 | A write moves bytes from the remaining to the queue and loses none. |
| QueueWriter.SystemReadsTheContent | backends/nsurlsession/src/stream/ns_stream.rs:133-280 | In every interleaving: the system reads a prefix of the content; read, lost to a close, queued and remaining bytes are the content; the queue keeps within its capacity; `AtEnd` means everything was read exactly when no close discarded bytes. |
| QueueWriter.ErrorIsToldIff | backends/nsurlsession/src/stream/ns_stream.rs:253-280 | In every interleaving, a read answers an error exactly when a read of the writer has failed and the queue is not locked; a 0 behind such a failure found it locked. |
| QueueWriter.EverythingCanBeRead | backends/nsurlsession/src/stream/ns_stream.rs:133-280 | In every interleaving without a close, as long as no stream fails, the system can still read on to the end. |
| QueueWriter.ZeroIsTheEndIff | backends/nsurlsession/src/stream/ns_stream.rs:253-280 | In every interleaving, a read into room that answers 0 stands behind the whole content exactly when nothing is queued, nothing remains and no close discarded bytes; once the end is marked, an unlocked one does exactly when nothing was discarded. |
| QueueWriter.AnnouncedZeroIsTheEnd | backends/nsurlsession/src/stream/ns_stream.rs:232-284 | A system that reads only when bytes are available or the end is reached, and finds the queue unlocked, gets 0 only behind the whole content, unless a close discarded bytes. |
| QueueWriter.ZeroTooSoon | backends/nsurlsession/src/stream/ns_stream.rs:255-257 | Other reads get 0 too soon: before the writer's first turn, and when a filled queue is locked. |
| FormEncoding.FormUrlEncode | backends/curl/src/url.rs:29-62 | The replacing loop appends exactly the per-byte form of the input, and terminates. |
| FormEncoding.ReplacedEscape | backends/curl/src/url.rs:52-60 | Replacing `%20` in the escaped text is the map of space to `+` on the bytes: no `%20` arises across escapes. |
| FormEncoding.FormByteIs | backends/curl/src/url.rs:29-62 | Letters, digits and `-._~` stand for themselves, a space becomes a plus sign, any other byte `%` and its two digits. |
| FormEncoding.FormBodySays | backends/curl/src/request.rs:135-146 | A field is written `name=value&`. |
| FormEncoding.EncodeForm | backends/curl/src/request.rs:135-146 | The loop over the fields prints exactly the form body. |
| FormParse.TextRoundTrip | backends/curl/src/url.rs:29-62 | Decoding undoes the form of any text. |
| FormParse.FieldRoundTrip | backends/curl/src/request.rs:138-142 | One printed field parses to its name and value. |
| FormParse.FormRoundTrip | backends/curl/src/request.rs:135-146 | Parsing the body by section 5.1 of the WHATWG URL Standard gives back the field list, for all fields, empty ones and the last `&` included. |
| CurlShare.LocksExclude | backends/curl/src/curl_ng/easy/share.rs:172-204 | For any number of threads that unlock what they locked: the panic is unreachable, a slot's data have one holder at most, and all guard slots are empty once nobody holds a lock. |
| CurlShare.StepKeeps | backends/curl/src/curl_ng/easy/share.rs:172-204 | Every step of a lock or unlock call keeps the owners of both mutexes of every slot consistent. |
| CurlShare.WaitsForItselfIff | backends/curl/src/curl_ng/easy/share.rs:172-204 | In every run, a step makes a thread wait for a mutex it holds itself exactly when it locks a datum whose slot it holds a datum of: the same datum again, or one of those from 6 upwards, which share a slot. |
| CurlShare.SameLockWaitsForItself | backends/curl/src/curl_ng/easy/share.rs:182 | Such a run for every datum: one thread locks it twice. |
| CurlShare.AliasedLockWaitsForItself | backends/curl/src/curl_ng/easy/share.rs:180-182 | Another one: it locks 6 and then 7. |
| CurlShare.WaitsForEver | backends/curl/src/curl_ng/easy/share.rs:182 | A thread that waits for itself does so for ever, whatever the other threads do. |
| CurlWaker.WakeupsAreSafe | backends/curl/src/curl_ng/multi/waker.rs:33-54 | In every interleaving of wakeups with the drop, `curl_multi_wakeup` never runs on a handle that was cleaned up, none is inside it once the pointer is cleared, and every later look answers an error. |
| CurlWaker.DropCanFinish | backends/curl/src/curl_ng/multi/waker.rs:50-89 | In every run the owner can finish its drop: the callers inside let it. |
| CurlWaker.StepKeeps | backends/curl/src/curl_ng/multi/waker.rs:33-89 | Every step keeps the lock's exclusion and the pointer's absence behind the invalidation. |
| EasySlot.ResetMakesFresh | backends/curl/src/blocking/multi_easy.rs:249-256 | A reset succeeds exactly when the easy is there and curl refuses nothing, and then leaves the handle equal to a new one; it panics exactly when the easy is missing. |
| EasySlot.Handle.WorkOnDetached | backends/curl/src/blocking/multi_easy.rs:32-64 | Detaching, working and putting back leave the handle as specified: without its easy once taking it out or adding it has failed. |
| EasySlot.Handle.Reset | backends/curl/src/blocking/multi_easy.rs:72-74 | A successful reset leaves the handle as good as new, in place. |
| EasySlot.MultiEasySlot.GetOrCreateHandle | backends/curl/src/blocking.rs:89-103 | The handle comes out of the slot, or is new; either way it is as good as new and no longer in the slot. |
| EasySlot.MultiEasySlot.PutBack | backends/curl/src/blocking.rs:63-75 | The guard's drop stores exactly its own handle, exactly when the slot is free, unlocked and the reset succeeds; it panics exactly when it would reset a handle without its easy. |
| EasySlot.HandlesAreOwnedOnce | backends/curl/src/blocking.rs:62-103 | Over any run of requests and drops by any number of threads, each handle has one owner at most, and what is taken from the slot equals a new handle. |
| EasySlot.MissingEasyEndsTheClient | backends/curl/src/blocking.rs:63-75 | A guard that returns a handle without its easy poisons the slot's lock: every later request panics. |
| EasySlot.PoisonedIff | backends/curl/src/blocking.rs:63-75 | In every run a handle has lost its easy exactly when curl failed to take it out or to put it back, and the slot's lock is poisoned exactly when such a handle came back to the empty slot. |
| EasySlot.FailedDetachPoisons | backends/curl/src/blocking/multi_easy.rs:32-36 | Such a run: the first request's easy cannot be taken out, and its guard brings the handle back. |

## Left out

- StreamUpload.PollStreamUpload: a run goes on for as many write completions as the system delivers.
- StreamWriter.StreamWriter.PollTakeBuffer: a vector's storage is an array, replaced when it grows; spare capacity is not modelled.
- PreparedBody.PrepareBody: assumes no overflow of the 64-bit length sum; the form encoder is a library (`form_urlencoded`) and its output an input here. The textual request headers are not modelled.
- Multipart.GenerateMultipartBody: the random boundary is a parameter; strings are bytes.
- MultipartParse.FormRoundTripIff: the quoted-string reader takes a lone CR or LF and a byte above 127 as itself; header lines are not unfolded.
- ChunkedCoding.DecodeChunks: the decoder takes no chunk extensions and no trailers, since the writer sends none.
- WinHttpContext.RequestContext.PollForState: its callers see no callback between its two critical sections; what one does there is `WinHttpWait.WaitIsAttendedIff`.
- WinHttpResponse.ReadsAreFaithful: the system's promises are assumptions: it reports and fills 1 up to all remaining bytes, and 0 only at the end.
- BodyCollect.WinHttpBlockingBytes: `usize` has 64 bits; a debug build panics where the model wraps.
- BodyCollect.CurlBytes: the pieces are given; that they are the body is `CurlReceive.ReaderGetsTheBody`.
- CurlReceive.ReaderGetsTheBody: reads after the end was reported, and an unpause that a dead loop refuses (its requests then have a result), are not modelled; an unpause of the sending side does not fail; wakers are not modelled, a waiting reader is one whose last poll was pending.
- CurlHeaders.HeadersAreTheLastBlocksIff: which lines are UTF-8 is a parameter; `trim_start` takes off ASCII whitespace only.
- CurlPauses.UploadEndsBehindTheResponseIff: taking the response is one step; one stream.
- CurlUpload.CurlGetsTheStream: a seek outside the stream fails; curl reads into non-empty buffers, as it promises.
- CurlLoopResults.EachEasyInOnePlace: shared memory is a value and each critical section a step; a handle's upgrade and release are separate steps of any client, and the lock that a sender holds on the manager is its presence in the state.
- CurlLoopResults.OneLoopRuns: assumes that `curl_multi_wakeup` on a live multi handle does not fail, that adding an easy to a multi handle does not fail (the source panics), and that a client is not cancelled while it starts a loop.
- CurlLoopFates.WaitsForEverIff: curl reports the end of a transfer once.
- CurlLoopLocks.WaitersGoOnIff: one loop whose queue stays; the end of a queue, which locks the states of the requests in it one by one, is not part of this module.
- CurlLoopThread.SharedState.RunTask: the response's status, length and headers are not part of the handle's state.
- QueueWriter.SystemReadsTheContent: the writer's stream is alive (the source holds it weakly); delegates, run loops and wakers are left out.
- FormEncoding.FormUrlEncode: `curl_easy_escape` is percent-encoding with upper-case digits; the cast of the input's length to a C int is not modelled.
- CurlShare.LocksExclude: the lock protocols here, in CurlWaker and in CurlLoopLocks are modelled on values, one step per critical section, without update in place; a thread that locks a mutex it owns waits, where Rust also allows a panic.
- EasySlot.HandlesAreOwnedOnce: a use that panics on a missing easy ends its thread; the guard's second panic while unwinding is not modelled.
- `concat_url`, `is_absolute`, header constants, status ranges, builders, timers, proxies and TLS options would only add easy members.
- The multipart generator of the NSURLSession backend is the WinHTTP one again; `backends/curl/src/share.rs` is an older copy of the lock module and is not compiled in.
- Foreign calls, raw pointers, pinning, charset decoding, random numbers, real time and memory exhaustion.
