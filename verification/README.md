# Verified model of the node-compat runtime

A Dafny model of the parts of node-compat that are hardest to get right: the native HTTP/1.x
server connection and the `node:http` response on top of it, the pool allocator, the reactor
(watchers, timers, microtasks, client connections), `node:events`, and the codecs (multipart
form data, base64, SHA-224). `dafny verify dfyconfig.toml` checks all of it.

Code that changes its state step by step is modelled by classes and loops with the same fields
and branches, each proved against a specification function or state machine; the results
about whole runs are lemmas about those specifications. Callbacks, the kernel, the clock and
the application are arbitrary: a finite tape, a list of steps, or a function of the history, so
that every finite run of the re-entrant code is one of the runs covered.

| files | what is in them |
|---|---|
| `HttpHead`, `HttpHeadText`, `HttpMachine`, `HttpConnection`, `HttpServing` | the request head, what it says as a text, the six read states, the class with the connection's own fields, and that class over whole runs |
| `HttpSplit`, `HttpSizeLines`, `HttpReference`, `HttpLongLine` | the meaning of a stream does not depend on how it is cut into reads, and exactly when |
| `HttpPipelining`, `HttpWire`, `HttpParked`, `HttpSystem` | the order of answers, what a pipelining client hears, requests that wait in the gate, and several connections behind one gate |
| `HttpChunks`, `HttpFraming`, `HttpResponse`, `HttpCalls` | the chunked coding, a reader of responses, the serializer, and a response from its first call to its last |
| `DispatchGate` | request handlers never nest |
| `ChunkTable`, `PoolAllocator` | the open-addressed chunk table and the size-class allocator over it |
| `EventLoop`, `Timers`, `Microtasks`, `ClientConnection` | deferred destruction, timer passes, the two queues, an outgoing connection |
| `ListenerStore`, `EventEmitter`, `OnceRun`, `StaleRun` | the indexed listener table, the emitter over it, when a one-time listener runs twice, and the run that breaks the table |
| `MultipartText`, `MultipartParameters`, `Multipart`, `MultipartRoundTrip`, `FormData` | form data written and parsed |
| `Base64`, `Sha224` | the two streaming codecs |
| `Bytes`, `Sequences`, `Wrappers` | octet strings, what is needed of sequences and histories, and `Option` |

## Model

| member | source | states |
|---|---|---|
| HttpConnections.HeaderValueHasToken | runtime/gea_node.cpp:2980-2993 | the loop over a comma-separated header value answers as the specification does; `HttpHeadTexts.HasTokenIs` says when that is yes |
| HttpConnections.ParseContentLength | runtime/gea_node.cpp:3454-3464 | the Content-Length loop gives what the specification reads from the text; `HttpHeadTexts.ContentLengthIs` says which texts and which numbers |
| HttpConnections.ParseChunkSize | runtime/gea_node.cpp:3325-3348 | the chunk-size loop gives what the specification reads from the line; `HttpHeadTexts.ChunkSizeExactly` says which number, 413 or 400 |
| HttpConnections.ParseField | runtime/gea_node.cpp:3427-3451 | the effect of one header field: two different Content-Length values refuse the head, Transfer-Encoding must name chunked, close wins over keep-alive within one Connection value, Expect asks for 100 Continue |
| HttpConnections.ParseFields | runtime/gea_node.cpp:3418-3452 | the loop over the header lines gives the fields of all lines in order, or refuses at the first bad one |
| HttpConnections.ReadHeadText | runtime/gea_node.cpp:3393-3466 | the imperative head parser gives what the whole-head reading gives, on every text; what that is on every text is `HttpHeadTexts.HeadExactly`; its only failure is 400, never the 501 its comment mentions |
| HttpHeadTexts.HeadExactly | runtime/gea_node.cpp:3393-3466 | a head is accepted if and only if it is a request line and field lines, told without the scanning, whose fields are proper, and what is taken from it is what they announce: verb, target, version and raw block in their places; keep-alive by the last Connection field that decides, `close` first, else by the version; chunked and 100-continue by any field that asks; a body length in decimal up to the cap unless chunked; everything else is 400 |
| HttpHeadTexts.HeadBack | runtime/gea_node.cpp:3393-3466 | words and fields written as a head are read from it, each in its place |
| HttpHeadTexts.RequestLineIs | runtime/gea_node.cpp:3403-3413 | the request line is two words without spaces and one of two versions, and nothing else is |
| HttpHeadTexts.FieldLineIs | runtime/gea_node.cpp:3424-3435 | a field line is a name without blanks or colon, a colon, and the value with any blank space around it, and nothing else is |
| HttpHeadTexts.LinesAre | runtime/gea_node.cpp:3418-3423 | the header loop sees a list of lines if and only if the block is these lines with their breaks, the last of which may be missing |
| HttpHeadTexts.LoopSays | runtime/gea_node.cpp:3437-3451 | the field loop refuses exactly the lists with a coding that is not chunked or two different lengths, and takes from the others what they say, on every list |
| HttpHeadTexts.HasTokenIs | runtime/gea_node.cpp:2980-2993 | the token scan answers yes if and only if an item between commas is that word but for blank space and letter case |
| HttpHeadTexts.ContentLengthIs | runtime/gea_node.cpp:3454-3464 | a text is accepted with a number if and only if it is a non-empty run of decimal digits that reads as this number, and the number is within the cap |
| HttpHeadTexts.ChunkSizeExactly | runtime/gea_node.cpp:3325-3348 | the text before the semicolon is a size if and only if it is a hexadecimal number within the cap; 413 if and only if its first digits make a number over the cap; 400 for all others |
| HttpHeadTexts.RequestRead | runtime/gea_node.cpp:3270-3296 | a head as a client writes it is found in the buffer up to its empty line, for any fields and whatever follows, and is read as what it announces |
| HttpHeadTexts.RequestDispatched | runtime/gea_node.cpp:3285-3303 | a request written without a body is what the handler is called with: verb, target, version, fields, keep-alive, and the rest stays in the buffer |
| HttpHeadTexts.BodyDispatched | runtime/gea_node.cpp:3305-3318 | so is one with a body of the length it announces, with exactly that body |
| HttpConnections.HttpConnection.constructor | runtime/gea_node.cpp:3566-3599 | a new connection waits for a head, is neither busy nor closing, and has written nothing |
| HttpConnections.HttpConnection.ReadHead | runtime/gea_node.cpp:3270-3304 | the head state: 431 over 16384 bytes with or without an end, otherwise the head is cut off at the empty line and its body state chosen; state machine and fields agree afterwards |
| HttpConnections.HttpConnection.ReadBody | runtime/gea_node.cpp:3305-3318 | the fixed-length state takes what there is, never more than is missing, and dispatches when nothing is |
| HttpConnections.HttpConnection.ReadChunkSize | runtime/gea_node.cpp:3319-3352 | the chunk-size state, with its rejection by buffered size and the zero chunk that leads to the trailers |
| HttpConnections.HttpConnection.ReadChunkData | runtime/gea_node.cpp:3354-3366 | the chunk-data state takes what there is of the chunk |
| HttpConnections.HttpConnection.ReadChunkCrlf | runtime/gea_node.cpp:3367-3375 | two bytes that must be CRLF follow a chunk |
| HttpConnections.HttpConnection.ReadTrailers | runtime/gea_node.cpp:3377-3387 | trailer lines are dropped up to the empty one, which dispatches |
| HttpConnections.HttpConnection.ProcessInput | runtime/gea_node.cpp:3267-3390 | the loop over the six read states leaves the fields as the state machine of the specification does: it stops for want of input, at an unanswered request, or at a refusal |
| HttpConnections.HttpConnection.DispatchCurrent | runtime/gea_node.cpp:3468-3482 | with no other handler on the stack the handler is called with the parsed request, the connection is busy and waits for a head |
| HttpConnections.HttpConnection.SendErrorAndClose | runtime/gea_node.cpp:3253-3265 | the error response joins the output and nothing more is read; busy stays set, so that no close follows from it unless a send fails |
| HttpConnections.HttpConnection.Flush | runtime/gea_node.cpp:3535-3553 | sending appends to the wire in order; whether it succeeds and how much is left are exactly what the answers of the socket come to |
| HttpConnections.FlushIs | runtime/gea_node.cpp:3535-3553 | what a flush comes to: the bytes that the answers before the stop take, and a failure if and only if bytes are left and the stop is a failed or empty send |
| HttpConnections.HttpConnection.FlushAndMaybeClose | runtime/gea_node.cpp:3555-3563 | exactly when the close is requested: a send has failed, or the output is drained, no request is outstanding, and the connection is closing or its peer closed; after a parser error only the first |
| HttpConnections.HttpConnection.OnReadable | runtime/gea_node.cpp:3027-3045 | a readiness callback appends what arrived and processes it, sends what it can, and requests the close exactly when that is due |
| HttpConnections.HttpConnection.EnqueueResponseBytes | runtime/gea_node.cpp:3049-3065 | a handler that answers later appends its next piece to the output, which is sent at once; the close is requested exactly when that is due |
| HttpConnections.HttpConnection.ResponseComplete | runtime/gea_node.cpp:3197-3206 | completion clears busy, dispatches the next pipelined request if it is already buffered, and requests the close exactly when that is due |
| HttpServing.Serve | runtime/gea_node.cpp:3027-3563 | over every run of the connection object, whatever arrives, is written, and is answered by the socket, its state is that of the machine after the same steps; and as long as no send fails a refused connection is never given up |
| HttpServing.RefusalRead | runtime/gea_node.cpp:3253-3262 | a client reads a refusal as a response of its status whose connection closes behind it |
| HttpSplit.SettleAppend | runtime/gea_node.cpp:3267-3391 | settling first and reading more afterwards is settling once on everything, unless an over-long chunk-size line was read whole |
| HttpSplit.ProcessAppend | runtime/gea_node.cpp:3267-3391 | the same for the loop that stops at an unanswered request |
| HttpSplit.SplitIndependence | runtime/gea_node.cpp:3267-3466 | for reads, writes and completions interleaved in any way the events so far are a prefix of the one-pass outcome of the bytes received, and settle to exactly it, when no size line is over-long |
| HttpSplit.CutIndependence | runtime/gea_node.cpp:3267-3466 | any two ways of cutting a stream into reads reach the same state and the same events when handlers answer at once |
| HttpSizeLines.CutIndependenceExactly | runtime/gea_node.cpp:3320-3323 | every prefix of a stream means the same however it is cut if and only if no chunk-size line that is read in it has 1024 bytes or more, unless that line is a 400 in any case |
| HttpSizeLines.FindBreak | runtime/gea_node.cpp:3319-3352 | an over-long line always gives a visible cut: an input prefix and a place in it where two reads answer otherwise than one |
| HttpReference.SettleIsReference | runtime/gea_node.cpp:3267-3391 | the incremental machine, run on the whole stream, gives the events of a reading that parses one whole message at a time |
| HttpReference.RunFollowsReference | runtime/gea_node.cpp:3267-3466 | for a stream without an over-long chunk-size line every run, with reads, writes and completions in any order, stays a prefix of the reference reading of the bytes received and settles to exactly it |
| HttpReference.ChunksMean | runtime/gea_node.cpp:3319-3388 | the chunk and trailer states dispatch exactly the body of the whole-body decoder, wait exactly when it is short, and refuse with its status |
| HttpReference.LengthBounded | runtime/gea_node.cpp:3454-3464 | an accepted head never announces more than 64 MiB, so the 413 of the fixed-length state cannot arise |
| HttpReference.ShortLinesExactly | runtime/gea_node.cpp:3320-3323 | the machine passes over an over-long size line exactly when the bytes of the stream, read one message at a time, contain one |
| HttpReference.CutsFollowReference | runtime/gea_node.cpp:3267-3466 | however such a stream is cut, with handlers that answer at once, the events are those of the reference reading |
| HttpLongLine.LongLineShown | runtime/gea_node.cpp:3320-3323 | one concrete chunked request with a 1023-byte extension on its size line: in one piece it is dispatched, cut inside that line it is answered with 400 |
| HttpPipelining.RunTells | runtime/gea_node.cpp:3197-3206 | every step of a run keeps the history a list of whole answers with at most one open request after them, in agreement with the connection flags |
| HttpPipelining.PipeliningOrder | runtime/gea_node.cpp:3267-3303 | over every run at most one request is dispatched and incomplete, and the output is the concatenation, in request order, of whole responses, each preceded only by its own 100 Continue |
| HttpWire.OwnAnswers | runtime/gea_node.cpp:3197-3206 | every whole answer on the wire is, byte for byte, the reply its own handler gave to its own request after exactly the events before it |
| HttpWire.ResponsesInOrder | runtime/gea_node.cpp:3267-3303 | when every reply is the finished output of a final response, a client that passes over interim responses and reads one final response after another gets back what each handler wrote, one for each request and in request order, and stops at the bytes of the request still open |
| HttpWire.HeardExactly | runtime/node/http.ts:951-956 | a reply is heard as it was meant if and only if its status is not that of an interim response; if it is, the client passes over it and takes the next answer for this one |
| HttpWire.AnyAnswers | runtime/node/http.ts:932-1130 | any final responses, kept alive or not, can be what the handlers answer |
| HttpParked.GatedRun | runtime/gea_node.cpp:3468-3493 | a run in which any request may wait in the dispatch gate is a run without the gate on the same bytes: parking and calling later equals calling |
| HttpParked.GatedOrder | runtime/gea_node.cpp:3468-3493 | answers keep the order of the requests whatever the gate decides; a parked request is the one after the last whole answer and not a byte of its answer is written |
| HttpParked.GatedFollowsReference | runtime/gea_node.cpp:3267-3493 | with requests parked and resumed at any time the history is a prefix of the reference reading of what arrived, and settles to it |
| HttpSystem.EveryRun | runtime/gea_node.cpp:2848-2876 | several connections behind one gate, over every run: no two handler frames overlap, parked requests are let through in parking order, and every connection is on its way to the reference reading of the bytes delivered to it |
| HttpSystem.EveryOrder | runtime/gea_node.cpp:2848-2876 | in every such run each connection answers in request order, and a request in the queue is unanswered to the last byte |
| HttpChunks.PrintFold | runtime/node/http.ts:1080-1086 | a chunk size printed in hexadecimal is read back by the server's own fold, with no overflow |
| HttpChunks.ChunkedRoundTrip | runtime/gea_node.cpp:3182-3194 | pieces within 64 MiB, written as chunks and closed by the final one, decode to their concatenation; following bytes are untouched |
| HttpChunks.ServerDecodesChunks | runtime/gea_node.cpp:3319-3388 | the chunk states of the connection, fed those bytes, dispatch exactly that body, keep what follows in the buffer, and meet no over-long line |
| HttpChunks.PiecesNotLong | runtime/gea_node.cpp:3319-3323 | the size lines the server itself writes are never over-long |
| HttpFraming.ResponseBack | runtime/gea_node.cpp:3127-3180 | a reader following section 6.3 of RFC 9112 takes back exactly the body of any response block whose framing was chosen by the connection |
| HttpResponse.CachedTailIs | runtime/gea_node.cpp:3143-3159 | the tail assembled once a second is the text the line-by-line path writes |
| HttpResponse.EndBlock | runtime/gea_node.cpp:3127-3180 | the framing decision and the text it appends, in terms of what the headers named, the request and the known length |
| HttpResponse.FramingIs | runtime/gea_node.cpp:3127-3139 | a length known in advance is announced; without one a client of HTTP/1.0 is never sent chunks and only such a client reads to the close; a suppressed body or the application's own framing is left alone |
| HttpResponse.ComputedTold | runtime/gea_node.cpp:3160-3168 | what a client reads of the lines the serializer adds: the connection stays or closes as the server has decided, unless the application said so itself; and the date |
| HttpResponse.HeadWriter.HeadBegin | runtime/gea_node.cpp:3074-3092 | the status line is appended, by the short path for 200 OK as by the general one, and the header marks are cleared |
| HttpResponse.HeadWriter.HeadField | runtime/gea_node.cpp:3094-3120 | the length switch recognises exactly the four names in any letter case, and the field line is appended |
| HttpResponse.HeadWriter.HeadEnd | runtime/gea_node.cpp:3127-3180 | the block is closed by the computed lines and the framing line; the two answers say whether the body is chunked and whether the connection is kept |
| HttpResponse.SetStaged | runtime/node/http.ts:764-790 | after setting a header the list holds that name once, with the new value, and every other header as before |
| HttpResponse.ServerResponse.constructor | runtime/node/http.ts:679-702 | a new response has nothing committed, written or finished |
| HttpResponse.ServerResponse.SetHeader | runtime/node/http.ts:822-838 | one value or an array of them replaces all earlier values of the name and leaves the other names alone |
| HttpResponse.ServerResponse.AppendHeader | runtime/node/http.ts:840-850 | one value or an array of them joins at the end, in order |
| HttpResponse.ServerResponse.RemoveHeader | runtime/node/http.ts:871-873 | every value of the name goes, the others stay in order |
| HttpResponse.ServerResponse.CommitHeaders | runtime/node/http.ts:932-942 | the head is serialized once; a second call changes nothing that was sent |
| HttpResponse.ServerResponse.EndHead | runtime/node/http.ts:951-965 | no body for HEAD, 1xx, 204 and 304; the connection's answer becomes the framing the later writes obey |
| HttpResponse.ServerResponse.WriteHead | runtime/node/http.ts:993-1036 | with nothing staged the given lines are the head's, in order; otherwise each name has the values of its last entry, every other name what was staged, and the whole is the head; a head already sent is kept |
| HttpResponse.ServerResponse.FlushHeaders | runtime/node/http.ts:1061-1064 | the head is committed and no body is added |
| HttpResponse.ServerResponse.Write | runtime/node/http.ts:1072-1089 | a write before the end is accepted and adds its bytes to the body, a later one changes nothing |
| HttpResponse.ServerResponse.End | runtime/node/http.ts:1091-1130 | the first end adds its bytes, closes the body and completes the response; a second one changes nothing |
| HttpResponse.Delimited | runtime/node/http.ts:932-1130 | after any calls that end a response, a reader takes exactly the body written, none for HEAD, 1xx, 204 and 304, and stops at the first byte of what follows; a response that runs to the close is never kept alive |
| HttpCalls.Respond | runtime/node/http.ts:932-1130 | any list of setStatus, header, writeHead, flushHeaders, write and end calls of which one is end: the reader takes back the status in force when the head was first needed and exactly the bytes written up to the first end, and stops where the next response begins; only a response that runs to the close gives up the connection |
| DispatchGate.FramesDoNotNest | runtime/gea_node.cpp:2848-2852 | between two handler entries the first frame has been left, whatever connections they belong to |
| DispatchGate.TakenRunsNext | runtime/gea_node.cpp:2864-2876 | a parked request taken while its connection lives is the next to run |
| DispatchGate.Gate.Park | runtime/gea_node.cpp:3468-3476 | a request parked while a handler runs goes to the end of the queue and its connection is marked |
| DispatchGate.Gate.TakeNext | runtime/gea_node.cpp:2867-2873 | the oldest parked request is taken; its connection, if it still exists, is no longer marked |
| DispatchGate.Gate.DispatchCurrent | runtime/gea_node.cpp:3468-3482 | a dispatch under a handler marks the connection, appends it to the queue and does nothing else; one from outside runs the request next and leaves no handler active |
| DispatchGate.Gate.DispatchDeferred | runtime/gea_node.cpp:3484-3493 | the parked request is what runs next, then what is buffered behind it |
| DispatchGate.Gate.DrainDeferredHandlers | runtime/gea_node.cpp:2864-2876 | an outermost drain returns with an empty queue, a nested one does nothing |
| DispatchGate.Gate.Run | runtime/gea_node.cpp:2848-2876 | over any run of reads, completions and teardowns the marks agree with the queue, no two frames overlap, every parked request has been taken once in parking order, and nothing is parked at the end |
| ChunkTable.PackBack | runtime/gea_node.cpp:765-787 | a packed entry fits a 64-bit word, is never the empty entry, and gives back class and key |
| ChunkTable.PackInjective | runtime/gea_node.cpp:765-787 | two chunks pack to the same word if and only if base and class are the same |
| ChunkTable.RegisterKeeps | runtime/gea_node.cpp:765-775 | writing an entry into the first free slot of its path keeps every earlier entry reachable and makes the new one so |
| ChunkTable.Table.constructor | runtime/gea_node.cpp:761-775 | an empty table knows no chunk |
| ChunkTable.Table.RegisterChunk | runtime/gea_node.cpp:765-775 | a registration adds exactly its base and class, or reports that all 64 tries were taken and changes nothing |
| ChunkTable.Table.LookupChunkClass | runtime/gea_node.cpp:777-787 | every registered base is found with its own class, every other base answers 0 |
| PoolAllocator.CellsApart | runtime/gea_node.cpp:907-950 | carved cells never overlap, within a chunk or across chunks |
| PoolAllocator.ClassFits | runtime/gea_node.cpp:908-908 | the class of a request is the smallest whose blocks hold it, and a request whose rounding wraps at the word has none |
| PoolAllocator.PooledExactly | runtime/gea_node.cpp:918-918 | the pool serves requests of 1 to 4096 bytes and no others |
| PoolAllocator.ListsApart | runtime/gea_node.cpp:957-981 | a block stands on one free list at most, and there once |
| PoolAllocator.ServedKeeps | runtime/gea_node.cpp:907-950 | a request gets one new live block that was nobody's, from the pool whenever the pool can serve it; nothing else becomes live, no link is written, and at most that block is newly carved |
| PoolAllocator.ReturnedKeeps | runtime/gea_node.cpp:957-981 | a release ends exactly one live block and keeps the pool sound |
| PoolAllocator.ReleaseThenAllocate | runtime/gea_node.cpp:907-981 | a block just released is the next one of its class handed out |
| PoolAllocator.ChunkTells | runtime/gea_node.cpp:957-981 | the chunk lookup tells a pooled block from one of the system, and gives the class it was carved for |
| PoolAllocator.EveryRun | runtime/gea_node.cpp:907-981 | over every run of requests, releases of live blocks and writes into them, two live blocks are disjoint |
| PoolAllocator.EveryBlock | runtime/gea_node.cpp:907-981 | over every such run a live block covers its request, and a pooled one is a carved cell inside one chunk |
| PoolAllocator.EveryByte | runtime/gea_node.cpp:907-981 | over every such run a live block shares no byte with a free block or with what is left to carve of any class |
| PoolAllocator.EverySpare | runtime/gea_node.cpp:957-981 | over every such run two free blocks share no byte |
| PoolAllocator.EveryCell | runtime/gea_node.cpp:907-981 | conservation over every run: a carved cell is live or free and never both, can only be on the free list of its own class, and lies below the bump tail |
| PoolAllocator.EveryList | runtime/gea_node.cpp:957-981 | over every run each free list is threaded through its blocks from the head to null without repetition |
| PoolAllocator.Allocator.constructor | runtime/gea_node.cpp:895-927 | a fresh allocator has no chunk, no list and no live block |
| PoolAllocator.Allocator.Pop | runtime/gea_node.cpp:919-924 | the head of a free list is handed out and the word in it becomes the head |
| PoolAllocator.Allocator.Carve | runtime/gea_node.cpp:941-945 | the next cell of the bump region is handed out |
| PoolAllocator.Allocator.OpenChunk | runtime/gea_node.cpp:928-940 | a chunk becomes the bump region of its class, or is refused when it cannot be mapped or the table is saturated on its path |
| PoolAllocator.Allocator.Allocate | runtime/gea_node.cpp:907-950 | the words, arrays and table are left as the specification of a request says, and the block was not live before |
| PoolAllocator.Allocator.ChunkClass | runtime/gea_node.cpp:963-973 | the one-entry cache and the table answer the same |
| PoolAllocator.Allocator.Push | runtime/gea_node.cpp:974-979 | a pooled block is linked in front of the list of its class through its first word |
| PoolAllocator.Allocator.Release | runtime/gea_node.cpp:957-981 | null is ignored, a pooled block goes to the list of its own class and one of the system back to it |
| PoolAllocator.Allocator.Write | runtime/gea_node.cpp:907-981 | a write to any address inside a live block keeps lists, table and every other block: it reaches no link of a free block |
| EventLoops.NeverDispatchedAfterClose | runtime/gea_node.cpp:1051-1074 | a watcher is not dispatched after it is closed; its address only after it has been erased and another watcher added there |
| EventLoops.PendingIsKept | runtime/gea_node.cpp:1120-1129 | while any snapshot of ready watchers is pending nothing is erased, and each of its watchers is still the same one |
| EventLoops.PollSet | runtime/gea_node.cpp:1143-1151 | what is polled is the open ones among the borrowed and then the owned watchers, each as often as it is there, in that order |
| EventLoops.ReadySet | runtime/gea_node.cpp:1186-1191 | what is to be dispatched is the polled watchers with an event that have not been closed since, each as often as it was polled, in the order polled |
| EventLoops.EventLoop.constructor | runtime/gea_node.cpp:1454-1457 | a new loop has no watcher and no pass |
| EventLoops.EventLoop.AddBorrowed | runtime/gea_node.cpp:1040-1043 | a borrowed watcher joins at the end |
| EventLoops.EventLoop.Adopt | runtime/gea_node.cpp:1044-1047 | an owned watcher joins at the end |
| EventLoops.EventLoop.Close | runtime/gea_node.cpp:1051-1074 | closing marks a watcher once and erases nothing |
| EventLoops.EventLoop.PurgeClosed | runtime/gea_node.cpp:1444-1452 | at depth zero exactly the marked watchers are erased, the others stay as often and in the order they were, and no mark is left |
| EventLoops.EventLoop.PurgeClosedIfSafe | runtime/gea_node.cpp:1127-1129 | under a dispatch nothing is erased, outside one every closed watcher is |
| EventLoops.EventLoop.DispatchWatcher | runtime/gea_node.cpp:1120-1125 | the watcher called is the one that was in the pending snapshot, and it is the only one called in the name of this pass |
| EventLoops.EventLoop.DispatchReady | runtime/gea_node.cpp:1192-1196 | the calls of the pass, nested passes aside, are the ready watchers in order, each at its own turn and once for each place it has; the ones left out were closed before their turn, when only earlier ones had been called; the turns end early only when the loop is told to stop |
| EventLoops.EventLoop.DispatchPolled | runtime/gea_node.cpp:1186-1206 | the pass calls, in order, the polled watchers that are ready, and of them only those closed before their turn are left out |
| EventLoops.EventLoop.RunPoll | runtime/gea_node.cpp:1133-1206 | any run of passes, with callbacks that add or close watchers or pump the loop again, keeps the history free of erased or closed watchers being called; on return outside a dispatch every closed watcher is erased |
| Timers.NeverAfterClear | runtime/gea_node.cpp:358-363 | no timer fires after it has been cleared |
| Timers.OneShotOnce | runtime/gea_node.cpp:374-407 | a one-shot timer fires at most once over the whole run |
| Timers.NeverEarly | runtime/gea_node.cpp:344-349 | over every run no timer fires before the time it was set plus its delay |
| Timers.FiringsApart | runtime/gea_node.cpp:383-383 | over every run two firings of one timer are at least its delay apart, and at least a millisecond |
| Timers.ArmedFor | runtime/gea_node.cpp:374-391 | between passes a registered timer is due exactly its delay after it was set, or after it fired last its delay but at least a millisecond |
| Timers.CollectedIs | runtime/gea_node.cpp:376-391 | what a collection leaves, timer by timer and in order, told without the loop |
| Timers.Collect | runtime/gea_node.cpp:376-391 | the in-place loop takes exactly the due timers; nothing it leaves is due, what was not due is as it was, what was due and repeats keeps id, interval and mark and is due the larger of its interval and a millisecond after the pass began, and the order stays |
| Timers.TimerQueue.constructor | runtime/gea_node.cpp:319-322 | no timer, no due set |
| Timers.TimerQueue.Add | runtime/gea_node.cpp:344-349 | a timer joins at the end under an id not used before; a negative delay counts as none; the history keeps when it was set and for how long |
| Timers.TimerQueue.Remove | runtime/gea_node.cpp:358-363 | clearing takes the timer out of the registry and out of the set of the running pass |
| Timers.TimerQueue.Unref | runtime/gea_node.cpp:364-371 | the reference mark of that timer is cleared and nothing else changes |
| Timers.TimerQueue.FireDue | runtime/gea_node.cpp:374-407 | one pass fires exactly the timers due at its start, less those cleared before their turn, ordered by due time and then id, all at the time it began; the registry is what the collection leaves, by the same law, and what the callbacks make of that, so timers added in the pass wait |
| Microtasks.FirstInFirstOut | runtime/gea_node.cpp:74-131 | what has run followed by what waits is what was queued, for microtasks and for ticks: both first in first out, each entry exactly once |
| Microtasks.TicksGoFirst | runtime/gea_node.cpp:97-103 | when a microtask starts, every tick queued so far has run |
| Microtasks.Queues.QueueMicrotask | runtime/gea_node.cpp:78-80 | an entry that can be called joins at the end, an empty one is dropped |
| Microtasks.Queues.QueueNextTick | runtime/gea_node.cpp:124-124 | a tick joins at the end |
| Microtasks.Queues.DrainNextTicks | runtime/gea_node.cpp:125-131 | the tick queue is empty on return, ticks queued by ticks included |
| Microtasks.Queues.DrainMicrotasks | runtime/gea_node.cpp:82-118 | a re-entered drain does nothing; otherwise the tick queue is empty on return and the microtask queue was empty before the last drain of ticks, after which no microtask ran |
| ClientConnections.AtMostOnce | runtime/gea_node.cpp:1549-1580 | connect, end, finish, error and close are each emitted at most once |
| ClientConnections.CloseIsLast | runtime/gea_node.cpp:1673-1761 | nothing follows close, and error is directly followed by close and the end of the history |
| ClientConnections.EveryRun | runtime/gea_node.cpp:1549-1761 | over every run of readiness, calls and replies of the kernel: the history is lawful, data events match the chunks received, and the bytes sent followed by the unsent ones are the writes accepted, all of them sent before the write side is shut down |
| ClientConnections.ChunkWaiting | runtime/gea_node.cpp:1568-1580 | when each data event read is answered by reading one chunk, the chunks that wait are as many as the data events that wait |
| ClientConnections.SentThenUnsent | runtime/gea_node.cpp:1688-1716 | sent bytes and the unsent rest are the accepted bytes; after the shutdown there is no rest |
| ClientConnections.WhenStranded | runtime/gea_node.cpp:1642-1647 | exactly which steps leave a connection that counts itself closed without the loop ever being asked to close it |
| ClientConnections.StrandedInTwoSteps | runtime/gea_node.cpp:1549-1566 | it happens: the peer ends first, then the program ends the connection |
| ClientConnections.SendLoop | runtime/gea_node.cpp:1689-1699 | the send loop goes on until everything is sent, the socket would block, or it fails |
| ClientConnections.RecvLoop | runtime/gea_node.cpp:1718-1741 | the receive loop keeps every chunk in order and stops at a short one, the end, a would-block or an error |
| ClientConnections.SendRunIs | runtime/gea_node.cpp:1689-1699 | the bytes sent are those the answers before the stop took, and how it ends is told by the answer at the stop |
| ClientConnections.ReadRunIs | runtime/gea_node.cpp:1718-1741 | the chunks are the bytes of the answers up to the stop; an empty receive there is the end of the peer, a failed one its error |
| ClientConnections.FlushTells | runtime/gea_node.cpp:1688-1705 | drain once everything accepted has gone, finish and close if they waited for it; error with its number, and close, when a send fails; else nothing, in this order |
| ClientConnections.ReadTells | runtime/gea_node.cpp:1718-1741 | a data event for each chunk, then end once when a receive brings no bytes, with the close if this side has ended, or error with its number and close |
| ClientConnections.ConnectTells | runtime/gea_node.cpp:1671-1686 | connect, and finish if it waited for it; or error with its number and close |
| ClientConnections.EndedTells | runtime/gea_node.cpp:1555-1562 | an error condition comes before a hangup and has the number the socket gives, or EIO; a hangup ends the peer once |
| ClientConnections.ClientConnection.constructor | runtime/gea_node.cpp:1524-1547 | a new connection has emitted nothing unless it was connected from the start |
| ClientConnections.ClientConnection.FinishWriteSideIfReady | runtime/gea_node.cpp:1707-1716 | the write side is shut down once, when it is connected, ended and drained; if the peer has ended too, that closes |
| ClientConnections.ClientConnection.Fail | runtime/gea_node.cpp:1753-1761 | a failure of an open connection emits error and close, of a closed one nothing |
| ClientConnections.ClientConnection.CloseFromPeer | runtime/gea_node.cpp:1743-1751 | the end of the peer counts once, and closes when the write side has finished |
| ClientConnections.ClientConnection.CompleteConnect | runtime/gea_node.cpp:1673-1686 | a connect that succeeded emits connect and may finish at once, one that failed fails |
| ClientConnections.ClientConnection.FlushWrites | runtime/gea_node.cpp:1688-1705 | as much as the socket takes leaves in order; a drained buffer is told once |
| ClientConnections.ClientConnection.ReadAvailable | runtime/gea_node.cpp:1718-1741 | each chunk received is queued with one data event |
| ClientConnections.ClientConnection.OnReady | runtime/gea_node.cpp:1549-1566 | a readiness callback does what the specification of one step says, whatever the kernel answers and the notified code calls |
| ClientConnections.ClientConnection.Write | runtime/gea_node.cpp:1623-1638 | bytes are taken exactly when the connection is open and not ended and the flush does not close it |
| ClientConnections.ClientConnection.End | runtime/gea_node.cpp:1642-1647 | an end is requested once and finishes at once when nothing waits |
| ClientConnections.ClientConnection.Destroy | runtime/gea_node.cpp:1649-1653 | destruction closes once |
| ClientConnections.ClientConnection.NextEvent | runtime/gea_node.cpp:1568-1573 | the oldest event is taken |
| ClientConnections.ClientConnection.ReadChunk | runtime/gea_node.cpp:1575-1580 | the oldest chunk is taken |
| ListenerStore.GroupOfFinds | runtime/node/events.ts:261-274 | the lookup through the index, or through the list for a symbol, finds exactly the listeners the ordered map has |
| ListenerStore.AddRefines | runtime/node/events.ts:312-365 | a registration or prepend, into a used, parked or new group, is the registration of the ordered map |
| ListenerStore.AddedRegisters | runtime/node/events.ts:357-363 | every registration in the ordered map: with prepend the entry comes first and the others move up by one, without it the entry comes last; other names keep their listeners, and a name is new, at the end, exactly when it was absent |
| ListenerStore.AddIsSeen | runtime/node/events.ts:312-365 | the same of the table, whatever group the entry goes to |
| ListenerStore.DropRefines | runtime/node/events.ts:277-297 | dropping a listener is the map's removal: the name goes with its last listener, whether its group is parked or, past 32 names, forgotten |
| ListenerStore.DropIsSeen | runtime/node/events.ts:277-297 | every removal from the table: one listener goes, the others close up, other names keep theirs, and the name goes exactly with its only listener |
| ListenerStore.DropSafeExactly | runtime/node/events.ts:277-297 | a drop on any group ever made and any index keeps index and list in agreement if and only if it is not stale: an emptied group, too many names to park, and the name registered again |
| StaleRuns.TurnsSafeExactly | runtime/node/events.ts:446-453 | for any group, and any sound tables forgetting no group that those told between its drops leave, removeGroup keeps index and list in agreement if and only if none of its drops meets an emptied group, too many names to park, and the name registered again |
| StaleRuns.StaleRun | runtime/node/events.ts:446-453 | it fails from every table with 32 names or more: two listeners for one more name, and a removal listener that takes the other one away and registers the name again |
| StaleRuns.StaleReached | runtime/node/events.ts:446-453 | such a run starts from an empty emitter, with a removal listener among its registrations |
| EventEmitters.CallsPrefix | runtime/node/events.ts:482-523 | at every moment an emit under way has called a prefix of the listeners it took, in order |
| EventEmitters.EmitCallsSnapshot | runtime/node/events.ts:482-523 | an emit that ends without a throw or a stale drop has called exactly the listeners registered when it began, in order, whatever they register, remove, remove all of or emit |
| EventEmitters.OnceRunsOnce | runtime/node/events.ts:512-519 | a one-time registration runs at most once over every run in which no emit takes what another has taken, nested emits included; a run without removal listeners is one |
| OnceRuns.TwiceIs | runtime/node/events.ts:499-519 | the mark for a double taking says exactly that two emits have taken one registration |
| OnceRuns.TwiceExactly | runtime/node/events.ts:499-521 | in a run whose emits are over and none cut short, a one-time registration has run more than once if and only if two emits have taken it |
| OnceRuns.OnceTwice | runtime/node/events.ts:512-519 | it happens: two one-time listeners and a removal listener that emits the name again |
| EventEmitters.EventEmitter.constructor | runtime/node/events.ts:178-184 | no listener, no group |
| EventEmitters.EventEmitter.FindGroup | runtime/node/events.ts:261-274 | the group the table gives a name |
| EventEmitters.EventEmitter.DropEntry | runtime/node/events.ts:277-297 | splice, list and index are changed as the table specification says, for any index |
| EventEmitters.EventEmitter.InsertEntry | runtime/node/events.ts:319-364 | the group is found, taken from the index or made, and the table is that of the registration |
| EventEmitters.EventEmitter.AddEntry | runtime/node/events.ts:312-365 | registration listeners are told first; when they are done the entry is the first of its name with prepend and the last without, the others keep their order, every other name has the listeners it had, and the name is new, at the end, exactly when it was absent |
| EventEmitters.EventEmitter.RemoveEntry | runtime/node/events.ts:431-442 | the last registration of the listener goes, and no other |
| EventEmitters.EventEmitter.RemoveFrom | runtime/node/events.ts:446-453 | the turns of removeGroup from a place down: untold, they take every listener of the group and nothing else |
| EventEmitters.EventEmitter.RemoveGroup | runtime/node/events.ts:446-453 | a group is emptied last listener first; with nobody told the name is gone and the other names and groups as they were |
| EventEmitters.EventEmitter.RemoveAllListeners | runtime/node/events.ts:455-472 | with nobody listening for removals the name, or every name, is gone and the rest of the map as it was; with removal listeners, who may do anything, the table stays sound and the call stops early only for a throw or at a stale drop |
| EventEmitters.EventEmitter.EmitDispatch | runtime/node/events.ts:482-523 | an emit with listeners takes the snapshot of its name and ends; one without changes nothing, or throws for error; an error is told to its monitors first, and only a handled one returns |
| EventEmitters.EventEmitter.Listeners | runtime/node/events.ts:561-568 | the listeners of a name, in order |
| EventEmitters.EventEmitter.ListenerCount | runtime/node/events.ts:548-558 | how many registrations a name, or a listener under it, has |
| EventEmitters.EventEmitter.EventNames | runtime/node/events.ts:586-592 | the names with listeners, in the order they entered |
| Base64.Digit | runtime/node/gea_node_buffer.hpp:197-204 | a digit of either alphabet has a value below 64, everything else none |
| Base64.DigitBack | runtime/node/gea_node_buffer.hpp:197-204 | reading back what the alphabets print, of all 64 values, and the padding character is none of them |
| Base64.AlphabetIs | runtime/node/gea_node_buffer.hpp:225-227 | the digits are written in the alphabets of sections 4 and 5 of RFC 4648 |
| Base64.GroupIs | runtime/node/gea_node_buffer.hpp:230-241 | a group is written as the bits of its bytes from the left, six at a time, with padding where there is no byte |
| Base64.WrapHarmless | runtime/node/gea_node_buffer.hpp:206-222 | the 32-bit accumulator that wraps decodes as one that keeps only the bits still pending |
| Base64.DecodeBase64 | runtime/node/gea_node_buffer.hpp:206-222 | the decoding loop gives the specified bytes, wrap-around included |
| Base64.EncodeBase64 | runtime/node/gea_node_buffer.hpp:224-248 | the encoding loop gives the specified digits of the chosen part of the data |
| Base64.RoundTrip | runtime/node/gea_node_buffer.hpp:197-248 | decoding an encoding gives the bytes back, for every byte sequence and both alphabets |
| Base64.PaddedLength | runtime/node/gea_node_buffer.hpp:224-248 | the padded form has four characters for each group of three bytes begun |
| Base64.EncodedLength | runtime/node/gea_node_buffer.hpp:228-247 | neither alphabet outgrows the reserved room: the plain text fills it exactly, the URL-safe one falls short by the padding it drops |
| Base64.UrlSafeUnpadded | runtime/node/gea_node_buffer.hpp:224-248 | the URL alphabet is written without padding |
| Sha224s.PaddedIs | runtime/node/gea_node_crypto.hpp:92-101 | the padded message is the message, one 0x80, the fewest zeros that fit, and the bit length in eight bytes, and fills whole blocks (section 5.1.1 of FIPS 180-4) |
| Sha224s.InitialWords | runtime/node/gea_node_crypto.hpp:150-150 | each initial word is the low half of the first 64 bits of the fraction of the square root of its prime, the ninth to the sixteenth (section 5.3.2 of FIPS 180-4) |
| Sha224s.OutputHoldsWords | runtime/node/gea_node_crypto.hpp:101-102 | the output holds the words of the state in order, each with its highest octet first |
| Sha224s.Sha224.constructor | runtime/node/gea_node_crypto.hpp:73-77 | nothing consumed |
| Sha224s.Sha224.Update | runtime/node/gea_node_crypto.hpp:77-90 | any piece of the message is consumed: full blocks are compressed in order, the rest is kept |
| Sha224s.Sha224.Finish | runtime/node/gea_node_crypto.hpp:92-103 | each of the seven words of the digest, highest octet first, is that word of the state after exactly the blocks of the padded message |
| Sha224s.Sha224.PadZeros | runtime/node/gea_node_crypto.hpp:96-97 | the padding loop ends, with as many zeros as the standard asks for |
| Sha224s.DigestOf | runtime/node/gea_node_crypto.hpp:77-103 | any split of a message into updates gives the digest of the whole, whose seven words are those of the last state |
| MultipartText.FindMultipartBoundary | runtime/node/globals.ts:1685-1702 | the search loop, with its skip past a false match, gives the specified place |
| MultipartText.FindsFirst | runtime/node/globals.ts:1685-1702 | the skip never misses a boundary: the search finds the first place where one stands, or there is none |
| MultipartText.QuotedBack | runtime/node/globals.ts:1704-1714 | a quoted text is read back, with its line breaks percent-coded |
| MultipartText.ReadQuoted | runtime/node/globals.ts:1739-1755 | the loop over a quoted value |
| MultipartText.MultipartParameter | runtime/node/globals.ts:1721-1771 | the cursor loop over the parameters of a header gives the specified value or none |
| MultipartParameters.ParameterFinds | runtime/node/globals.ts:1721-1771 | on every header written as a list of quoted and unquoted parameters the search on the text is the search on the list, which goes on inside a quoted text when it passes over one with something like a parameter behind a semicolon |
| MultipartParameters.ParameterExactly | runtime/node/globals.ts:1721-1771 | the search ends at exactly one place: at the first parameter of the name that it comes by; inside a quoted parameter that it passes over, with what the text there gives; or nowhere, with nothing |
| MultipartParameters.OnlyOneFoundExactly | runtime/node/globals.ts:1721-1771 | the only parameter of a name is what the search ends at if and only if the search comes by its place and has not gone on inside another one before |
| MultipartParameters.MissedAfterUnquoted | runtime/node/globals.ts:1721-1771 | a parameter directly behind an unquoted one of another name is not come by: nothing is found, or what stands behind a semicolon in its quotes |
| MultipartParameters.PassedOverExactly | runtime/node/globals.ts:1766-1767 | a parameter can be passed over unnoticed, whatever stands around it and whatever name is wanted, if and only if its text holds no `=` behind a semicolon |
| MultipartParameters.NameInside | runtime/node/globals.ts:1766-1767 | what is found inside: the value written there, up to the closing quote and with it |
| MultipartParameters.FoundInside | runtime/node/globals.ts:1766-1767 | it happens: in a header of two parameters a name is found that neither of them has |
| MultipartRoundTrip.DispositionRead | runtime/node/globals.ts:1597-1612 | name and file name are read back from the disposition that was written |
| MultipartRoundTrip.RoundTrip | runtime/node/globals.ts:1592-1683 | parsing what a form was encoded to gives every entry back in order, its text as the encoding lets it through |
| MultipartRoundTrip.RoundTripExactly | runtime/node/globals.ts:1592-1683 | the form comes back unchanged if and only if no name or file name has a line break and every file has a media type without outer white space |
| FormDatas.FormData.constructor | runtime/node/globals.ts:1458-1460 | an empty form |
| FormDatas.FormData.Append | runtime/node/globals.ts:1484-1487 | an entry joins at the end; octets become a file under the given name or their own |
| FormDatas.Normal | runtime/node/globals.ts:1580-1589 | text stays text; octets and files become files with the same content and media type, under the given name, else their own, else `blob` |
| FormDatas.FormData.EncodeMultipart | runtime/node/globals.ts:1592-1620 | the loop over the entries writes the specified body under a boundary of its own |
| Multipart.DispositionText | runtime/node/globals.ts:1597-1606 | the disposition of a part as text, with the file name of a file |
| Multipart.HeadText | runtime/node/globals.ts:1600-1615 | the headers of a part as text: a file also has its type, or that of plain octets |
| Multipart.FormText | runtime/node/globals.ts:1595-1621 | the form as text: a delimiter line before each part, an empty line in it before the content, and the closing delimiter |
| Multipart.FileIs | runtime/node/globals.ts:1373-1389 | a file's name has colons for slashes, its type is lower case, or empty when it is not printable ASCII, and its content stays |
| FormDatas.ReadPart | runtime/node/globals.ts:1647-1678 | the entry a part is read as, if it has a name |
| FormDatas.ReadStep | runtime/node/globals.ts:1635-1645 | one turn of the part loop cuts out a part and finds the next delimiter |
| Multipart.StepIs | runtime/node/globals.ts:1634-1645 | behind a delimiter two hyphens close the form and anything but a line break is malformed; a part ends at the first boundary there is, with its break off, and without one the form is never closed; on every text |
| FormDatas.ParseParts | runtime/node/globals.ts:1634-1680 | the part loop ends, and gives the entries of the parts in order |
| FormDatas.ParseMultipart | runtime/node/globals.ts:1622-1681 | a content type without a boundary, or a body without one, is refused; otherwise the parts are read |
| FormDatas.FormRoundTrip | runtime/node/globals.ts:1592-1683 | encoding and parsing under the boundary of any serial number is the identity up to line breaks in names and media types, and exactly when |

## Findings

Where the code does not do what one would expect of it, the model keeps the code, shows an
input, and states the exact condition.

- A chunk-size line of 1024 bytes or more is refused or not depending on how it arrives, because
  the limit applies to what is buffered and only while the line has no end
  (runtime/gea_node.cpp:3320-3323). `HttpLongLine.LongLineShown` gives a request;
  `HttpSizeLines.CutIndependenceExactly` states the condition on the bytes.
- After a parser error the connection is not closed from this side unless a send fails: `busy_`
  stays set and the close test requires it clear (runtime/gea_node.cpp:3262,
  runtime/gea_node.cpp:3555-3561). `HttpServing.Serve` states it over whole runs.
- A response of status 100 to 199 other than 101 is complete for the server and interim for the
  client, which takes the next answer for it (runtime/node/http.ts:951-956). `HttpWire.HeardExactly`
  is the if and only if.
- `parseHead` returns 400 or 0 and never the 501 its comment announces
  (runtime/gea_node.cpp:3393-3466). See `HttpConnections.ReadHeadText`.
- A client connection whose peer ends first, and which the program then ends, counts itself
  closed without the loop being asked to close it (runtime/gea_node.cpp:1642-1647,
  runtime/gea_node.cpp:1707-1716). `ClientConnections.StrandedInTwoSteps` is the run,
  `ClientConnections.WhenStranded` says exactly which steps do it.
- `removeGroup` can call `dropEntry` on a group that listeners told of an earlier removal have
  emptied; with too many names to park, and the name registered again, the index loses the new
  group (runtime/node/events.ts:277-297, runtime/node/events.ts:446-453).
  `StaleRuns.StaleReached` is the run from an empty emitter, `StaleRuns.TurnsSafeExactly` the
  exact condition.
- `multipartParameter` passes over the parameter that directly follows an unquoted one it did not
  want, because it skips to a semicolon a second time (runtime/node/globals.ts:1766-1767). If that
  semicolon stands inside the quotes of the parameter passed over, the search goes on in there and
  can find a name that the header does not have. `MultipartParameters.ParameterExactly` says what
  is found on every header, `MultipartParameters.FoundInside` shows such a header, and
  `MultipartParameters.PassedOverExactly` says exactly which parameters cannot be misread so.
- A one-time listener runs twice when a listener for removals emits the name again between the
  removals of one emit (runtime/node/events.ts:512-519). `OnceRuns.OnceTwice` is such a run,
  `OnceRuns.TwiceExactly` the exact condition.
- A form comes back changed when a name or file name has a line break, or a file's media type is
  empty or has outer white space (runtime/node/globals.ts:1592-1683).
  `MultipartRoundTrip.RoundTripExactly` is the if and only if.

## Left out

- HttpConnections.HttpConnection.DispatchCurrent: the handler returns normally; the 500 after a handler that throws is not part of this model.
- HttpConnections.HttpConnection.OnReadable: bytes before the end of the stream; which input is dropped at a half-close is not stated.
- HttpConnections.HttpConnection.ReadHead: the fields of the current request are one `Head` record.
- HttpConnections.HttpConnection.ResponseComplete: a handler that completes while its connection is still processing is a step taken right after the dispatch instead of inside it.
- HttpSystem.EveryRun: a handler that completes its own response while it runs is a step taken after it has returned, and what the gate lets through next is any step after that, not always the first.
- HttpWire.ResponsesInOrder: the reader is told for each request whether it was a HEAD, as the client that sent it knows; replies of an interim status are in `HttpWire.HeardExactly`.
- HttpResponse.ServerResponse.constructor: the first header kept in two fields of its own is part of the one list; `writeEarlyHints` and `destroy` are not modelled.
- HttpResponse.Delimited: for applications that set no Content-Length or Transfer-Encoding and put no line break in header text, as the code leaves to its callers; header names are tokens, the status is any number, and the date is any text.
- ChunkTable.Table.RegisterChunk: one thread; the compare-and-swap that lets several register at once is not modelled.
- PoolAllocator.Allocator.Allocate: the abort when the system has no memory, the allocation census and the platform's own heap are not modelled; memory is a map from addresses to words.
- EventLoops.EventLoop.RunPoll: the poll backend; the epoll and kqueue ones share the pass but are not written out, and the stop predicate only answers.
- Timers.TimerQueue.FireDue: passes do not nest, as the one due set of the code requires; times are real numbers, ids do not wrap, and a callback is any list of additions, removals and marks.
- Microtasks.Queues.DrainMicrotasks: jobs do not throw.
- ClientConnections.ClientConnection.OnReady: the kernel answers each send and receive with any value of its contract; name lookup and socket options are not modelled.
- EventEmitters.EventEmitter.RemoveAllListeners: a run is told only up to a stale drop, since the table is broken after it; what the table is then is in `ListenerStore.DropSafeExactly`. The loop of `removeGroup` is written as a recursion.
- EventEmitters.EventEmitter.AddEntry: the parallel lists of listeners and once marks are one list of entries, each numbered at its registration; a group object is a handle that is never used twice; the limit on listeners only warns.
- EventEmitters.EventEmitter.EmitDispatch: `captureRejection` and promises returned by listeners are not modelled.
- Sha224s.Sha224.Update: the compression function is any function of state and block, and messages are below 2^61 bytes.
- MultipartRoundTrip.RoundTrip: text is encoded and decoded by any pair of functions that undo each other; letters are lowered as in ASCII; the modification time of a file is not kept.
- FormDatas.ReadPart: the cursor is kept as the text behind it.
- FormDatas.FormData.Append: `set`, `delete`, `get` and the iterators are left out, as members that would add only easy claims.
- Process spawning, clusters, DNS, file access, the compression and TLS libraries, the facades of other modules, and the applications: no part of this model.
