# An event-driven HTTP/1.x server, modelled and verified

The server accepts connections, reads requests from non-blocking sockets, parses them byte by byte as they
arrive, calls user code back, and writes responses as far as the sockets take them. This project models four
linked parts of it and proves what they promise over every input, every cut into reads, every schedule of
partial writes and every interleaving of connections.

1. **The resumable parser** (`Automaton`, `Parser`, `ParserObject`). A byte automaton with actions, whose state
   survives between calls while the buffer underneath it grows, is rewound and is compacted. `Parser.Exec` says
   what one call does; `ParserObject` holds the parser and the buffer as objects that are updated in place, with
   the loop over the bytes, and proves them equal to it.
2. **The reader and dispatcher** (`ReadBuffer`, `ReadSocket`, `RequestObject`, `Accessors`, `RequestUtil`). Capped
   doubling growth, the token array, the loop that turns tokens into callbacks, and the accessors user code calls:
   `Accessors` as functions of the array, `RequestUtil` on the objects.
3. **The serializer** (`OutputBuffer`, `Respond`). The growable output buffer with its two ways of appending,
   heads, chunk frames and the end of a chunked response.
4. **The connection machine and the memory ledger** (`Connection`, `Server`, `Wire`, `Service`, `IoEvents`). The
   recursion read, callback, respond, write, read as steps over any number of connections that share one
   estimate of the memory in use. `Connection` gives each step as a function, `IoEvents` the handlers on the
   request object, proved equal to those functions.

## How the results fit together

`Head.Fold` is the reference for heads: it looks at one byte after the other, with no buffer, no cuts and no calls.
`Sessions.Play` runs the parser under a schedule of reads (any bytes, at any time) and parser calls.
`HeadCuts.EverySchedule` shows that every schedule follows the fold, and `HeadResults` draws the conclusions: cuts do
not matter, errors are absorbing, head tokens keep their bytes. `HeadRoundTrip` prints requests and shows that the
fold returns what was printed, `Limits` which lengths it puts up with; `HeadGrammar` is a line grammar of its own, and
shows that the automaton accepts the heads of that grammar, no others, and gives up at the first byte that does not
fit. `HeadShape` says exactly when the tokens of a head have the expected order. `Bodies` and `Chunks` continue every
schedule beyond the head, for the ways a body can be delimited; for chunks, `ChunkStream` is the printed stream and
`ChunkLooks` what a call makes of chunk data that are not all there. `Callbacks` turns the tokens into the callback
protocol and shows that every run of the reader is a schedule, and `Filed` says what user code finds in the token
array while it runs; `EndToEnd` puts head, body and callbacks together for whole requests, and `Completion` shows that
under every schedule a request of which all has been received is finished by further calls. `Visits`, `Serving`,
`ChunkServing` and `AtOnce` are about runs of the reader, with its buffer of limited size: which requests they finish,
exactly. `Service` shows that each request of each connection of a running server is such a run, so all of the above
holds of it, and `Pipelining` what the server does with bytes behind a request. `OutputBuffer` and `Respond` show what
a reply puts into its buffer, `Wire` that this, and nothing else, reaches the client, and `ResponseHead` what a client
reads there. `Server` has the invariants over all runs: the ledger, the release of buffers, the session states and the
timeouts. `KeepAlive` and `Reactions` are about what a request asks for, what user code decides, and what becomes of
the connection. `Growth` and `Debt` say which events the ledger does not see. `Shortfalls`, `ChunkShortfalls` and
`Runs` have the runs in which the code falls short, and the conditions under which it does not; `Wraparound` is about
the 8-bit sequence ids.

The code is modelled as it is, including where it falls short of its intent. Those cases, with the exact
condition under which the code does meet the intent:

- A body is declared complete one byte early (`src/parser.rl:110`, `src/parser.rl:146`, `src/parser.rl:158`). It is
  complete when it is declared so if and only if the parser never looks when exactly one byte is missing:
  `Shortfalls.LargeBodyIsBacked`, `Shortfalls.SmallBodyIsBacked`, `ChunkShortfalls.ChunksAreBacked`. Inputs that fail:
  `Shortfalls.OneByteShortIsHandedOut`, `Shortfalls.LargeOneByteShort`, `ChunkShortfalls.ChunkOneByteShort`.
- The first chunk of a body loses its length if the parser looks at it before it is complete (`src/parser.rl:215-223`):
  its data are then read as a size. One byte, or zero digits behind it, do no harm. `ChunkShortfalls.FirstChunkExactly`
  has the exact condition under every schedule, `ChunkShortfalls.FirstChunkInTwoReads` for every cut into two reads, and
  `Completion.HelloRequestIsLost` a whole run in which the user is told that the body has ended after no byte.
- Moving chunk data to make room strands the connection (`src/parser.rl:119-127`): for a later chunk if and only if the
  last byte received and the length of the chunk together reach beyond the largest buffer
  (`ChunkShortfalls.CompactionStalls`), for the first one if and only if the look at its data ends that way
  (`ChunkShortfalls.MovedFirstChunkStalls`). A run is in `Completion.LargeChunkIsStranded`.
- The largest buffer limits what can be served. A request that is not chunked is served by every run that is sent all
  of it if and only if its head fits into that buffer, with a byte to spare if the body is streamed; otherwise the
  connection is closed: `Serving.EveryRunEnds`, `Serving.NoRoomNoService`, with a run in `Serving.LongHeadIsClosed`. A
  chunked request is finished only if its head, its chunks and the last size line fit into the buffer together:
  `ChunkServing.FinishedChunksFit`.
- Even then a chunked request can be lost. The reader stops reading when the buffer grows to its largest size
  (`src/read_socket.c:55`), so a chunk that lies across the size before that is looked at incomplete, although all of it
  is there. `AtOnce.ArrivesAtOnce` says exactly which requests survive when all their bytes are there at once,
  `AtOnce.FittingChunksAreServed` that those do that fit into the smaller size, and `AtOnce.TextAcrossTheCutIsLost` that
  a single chunk of text across the cut does not.
- The sequence ids have eight bits (`src/common.h:48`), so a parser that has not run dry for 256 reads is held back over
  unread bytes, for good: `Wraparound.SameIds`, with a run in `Wraparound.DrippedRequestIsStranded`.
- A header value that starts with a bare carriage return gives two value tokens:
  `HeadShape.WellShapedUnlessBareReturn`, with `HeadShape.BareReturnExample`.
- Formatted output that makes the buffer grow, or fills it exactly, is not what was formatted:
  `OutputBuffer.PutIsExact`. As a consequence a response goes out right only if its head is shorter than 1024
  bytes, and a chunk only if all of its output is: `Respond.ReplyIsPrinted`.
- A chunked response ends with one line end more than section 7.1 of RFC 9112 asks for (`src/respond.c:221-223`):
  `Wire.ChunkedResponse`.
- The resize for a small body (`src/parser.rl:82-85`) is not booked, so the estimate falls behind the truth, for good.
  `Debt.EstimateLessTheResizes` says by how much after every run, `Debt.HandleAddsDebt` which event adds how much, and
  `Runs.LedgerFallsBehind`, `Runs.EstimateGoesNegative` and `Runs.PostIsNotCounted` are runs.
- The mark that a decision is left to the server is never set again (`src/request_util.c:98-106`), so a directive to keep a
  connection stands for all its later requests, whatever they ask for: `Reactions.DirectivesStand`. A directive to close
  stands until another head is announced, because that sets the same bit (`src/read_socket.c:85`):
  `Reactions.AnnouncingSetsTheBit`.
- User code may release the buffer of a request before it answers (`src/api.h:326-338`), but without a directive the head
  of the answer is then decided by what lies where the buffer was (`src/request_util.c:51-63`):
  `Reactions.FreedBufferIsLookedAt`.
- The longer timeout for connections kept alive (`src/write_socket.h:4`) is never in force:
  `Server.KeepAliveTimeoutIsOverwritten`.
- The token array is not emptied between the requests of a connection, so accessors read the present buffer where a
  token of the first request with one of the kind lay. The answer is right if and only if no earlier request left such
  a token, or it has the same index and length: `Accessors.AnswersForThePresent`; for the target of a second request,
  `Runs.TargetOfTheSecond`. A run in which it is wrong: `Runs.SecondGetIsCut`.
- A buffer that is full and consumed makes the next read one of no bytes, which is taken for the end of the input
  (`src/read_socket.c:37-59`). As long as the input does not end, a visit takes it for ended if and only if the buffer
  is in that state: `ReadSocket.FullBufferIsTheEnd`. `Serving.LongHeadIsClosed` is a run that gets there.
- After a head without a body the automaton reads a colon as the end of one more header name, and hands the head out
  again, so that the handler runs twice: `Pipelining.HandlerRunsAgain`. It takes a visit that user code asks for; on a
  connection on which no chunk is asked for, the handler is called at most once more than responses have been
  completed, whatever is pipelined:
  `Pipelining.OneHandlerForEachResponse`.

`dafny verify dfyconfig.toml` checks the whole project.

## Model

| member | source | states |
|---|---|---|
| HeadCuts.EverySchedule | src/parser.rl:23-89 | under every schedule of reads and parser calls the parser is either still in the head, with exactly the tokens and fields the byte-by-byte fold over what it has read gives, or past a head whose tokens came first and whose bytes are where they were |
| HeadResults.SettledSessionsFollowTheFold | src/parser.rl:181-213 | once the input received has been worked off, the tokens begin with those of the fold, the head is complete if and only if the fold is, and in an incomplete head all fields agree |
| HeadResults.CutsDoNotMatter | src/parser.rl:33-60 | two schedules that deliver the same bytes, in any two cuts, end with the same head tokens and, in the head, the same fields |
| HeadResults.ParseMakesProgress | src/parser.rl:241-261 | as long as no token passes its limit, a call in the head returns a token and consumes input, or has worked the input off |
| HeadResults.UncutSettles | src/parser.rl:241-261 | with all input in one buffer, as many calls as there are bytes, and one, work it off |
| HeadResults.SameTokensAsUncut | src/parser.rl:241-261 | the head tokens of any settled schedule are those of the same bytes in one uncut buffer |
| HeadResults.ErrorsAreAbsorbing | src/parser.rl:176-179 | from the error state no schedule leads anywhere: no token is returned and no field changes |
| HeadResults.HeadTokensKeepTheirBytes | src/parser.rl:33-38 | a head token once returned lies inside the buffer, overlaps no earlier one, and keeps its place and its bytes through all later reads, growth, rewinds and compaction |
| Head.FoldSound | src/parser.rl:190-213 | the tokens of any head are in order and disjoint, only the last one ends a head, and the body states are entered only there |
| HeadShape.WellShapedUnlessBareReturn | src/parser.rl:190-213 | the tokens of a complete head are method, target, version, one or more pairs of name and value, and the end, if and only if no header value starts with a bare carriage return |
| HeadShape.PairedReturnsAreNotBare | src/parser.rl:198 | input in which a line feed follows every carriage return has no such value |
| HeadShape.BareReturnExample | src/parser.rl:198 | an input with such a value, and its seven tokens, two of them values in a row |
| HeadRoundTrip.RequestReadsBack | src/parser.rl:186-213 | reading any printed request with names and values within the limits, and any blanks behind each colon, gives its tokens, the end of the head, the announced length, the coding flag and the body state that goes with them |
| HeadRoundTrip.TokensSpellRequest | src/parser.rl:186-213 | these tokens spell the method, the target, the version and every name and value, in order |
| HeadRoundTrip.ReadHeaderBlock | src/parser.rl:196-213 | the header grammar, started after any request line, returns a printed header block and nothing else |
| HeadRoundTrip.ReadHeaders | src/parser.rl:196-211 | the same for a list of headers that is not yet ended |
| HeadGrammar.HeadsAreOfTheGrammar | src/parser.rl:181-213 | a head is complete if and only if the bytes begin with a request line, one or more header lines and a blank line of a grammar that does not know the automaton, and it ends where that ends |
| HeadGrammar.ErrorsAreOutsideTheGrammar | src/parser.rl:176-213 | the automaton has given up if and only if the bytes neither begin with such a head nor are the beginning of one: at the first byte that does not fit, and not before |
| HeadGrammar.SchedulesFollowTheGrammar | src/parser.rl:181-213 | so under every schedule: once the input has been worked off, the head is complete exactly if there is one, and the parser is in the error state exactly if there can be none |
| Limits.WithinLimitsIfShort | src/parser.rl:12-32 | of the heads in order exactly those are read without reaching a limit whose method, target, names and values have at most 32, 1024, 256 and 4095 bytes |
| Digits.DecimalRoundTrip | src/parser.rl:40-43 | the digits of a printed length accumulate to it, and no intermediate value exceeds it, so a length that fits its type never overflows on the way |
| Digits.HexRoundTrip | src/parser.rl:95-106 | the same for chunk sizes in hexadecimal, which begin with a zero only for zero |
| Digits.PrintedInUpperCase | src/respond.c:209 | printed chunk sizes are in upper case |
| Digits.SixteenDigits | src/parser.rl:95-106 | the sixteen digits, in either case, are those the size action counts, each by its place among them |
| Digits.ChunkSizeDigits | src/parser.rl:91-106 | the two chunk size actions compute the value of the digits seen so far |
| Digits.AnnouncedLength | src/parser.rl:201-204 | a head with one Content-Length header, whatever the case of its name and the blanks around its digits, and any other headers around it, announces just that number |
| Digits.AsksWithBlanks | src/parser.rl:206-209 | a Transfer-Encoding value that begins with the word asks for chunks, whatever follows it |
| Bodies.FramingDecision | src/parser.rl:62-89 | in every schedule, when the head is complete, the body is delimited in exactly one way: chunked, absent, small if and only if it fits behind the head into the largest buffer, and large otherwise |
| Bodies.SmallBodyGetsRoom | src/parser.rl:80-88 | a small body gets room for itself and the head, within the largest buffer; otherwise the buffer does not change size, and it never shrinks |
| Bodies.HeadIsCompleted | src/parser.rl:62-89 | a schedule that gets beyond the head passes through the moment the head is complete, with nothing of the body consumed |
| Bodies.LargeBodyAddsUp | src/parser.rl:155-174 | in every schedule the pieces of a large body have positive lengths, start right after the head and, with what remains, add up to the announced length; the last one, and only it, is final, and nothing follows it |
| Bodies.LargeBodyIsDelivered | src/parser.rl:155-174 | if the parser never looks at the buffer when exactly one byte is missing, the pieces, one after the other, are the bytes sent |
| Bodies.LargeBodyIsFinished | src/parser.rl:155-174 | once all of a large body has been received, whatever the cuts, the next call that is not held back finishes it, and the pieces are the bytes sent |
| Bodies.SmallBodyIsDelivered | src/parser.rl:141-153 | a small body gives exactly one token, right after the head and of the announced length, which under the same condition spells the body |
| Bodies.SmallBodyIsFinished | src/parser.rl:141-153 | the same for a small body, in one token that spells it |
| Shortfalls.LargeBodyIsBacked | src/parser.rl:157-163 | a large body is complete whenever it is declared complete, if and only if the parser never looks at the buffer while exactly one byte is missing |
| Shortfalls.LargeOneByteShort | src/parser.rl:157-163 | the failing case: with all but the last byte there, the body is handed out in full length and declared finished |
| Shortfalls.SmallBodyIsBacked | src/parser.rl:145-149 | the same for a small body |
| Shortfalls.OneByteShortIsHandedOut | src/parser.rl:145-149 | the failing case: with all but the last byte there, the body is handed out in full length |
| ChunkLooks.LaterLook | src/parser.rl:108-128 | a look at a chunk after the first hands it out as soon as at most one byte is missing, moves it if it cannot stay, and waits otherwise |
| ChunkLooks.ScanWaiting | src/parser.rl:108-128 | a call on awaited chunk data ends as the look at these data says: waiting, handed out with some length, or moved |
| ChunkStream.LineErrors | src/parser.rl:215-223 | at every place of a size line, or of the line ends around the data, the byte on which the parser fails is exactly the one that may not be there |
| ChunkShortfalls.FirstChunkExactly | src/parser.rl:215-223 | under every schedule, what comes of the first chunk is what the looks at its data come to, so that, unless they end with moving it, it comes out as it was sent if and only if they end with its own length |
| ChunkShortfalls.FirstChunkInTwoReads | src/parser.rl:215-223 | for every chunk and every number of its bytes in the first of two reads, unless it is moved, it comes out as it was sent if and only if the two looks, a function of the bytes and the cut, say so; otherwise with the length they say |
| ChunkShortfalls.KeptInTwoLooks | src/parser.rl:215-223 | with nothing, one byte, or one byte and zero digits in the first read it does, unless it has to be moved |
| ChunkShortfalls.TextIsReadAsTheEnd | src/parser.rl:95-106 | ordinary text that is cut comes out with length zero, as if the body had ended |
| ChunkShortfalls.HelloIsLost | src/parser.rl:215-223 | the failing run from a complete head: a chunk callback of length zero for "hello" cut in two |
| ChunkShortfalls.HarmlessCutsKeepTheFirst | src/parser.rl:215-223 | a schedule that looks at incomplete data of the first chunk only while zero digits follow its first byte never loses its length |
| ChunkShortfalls.ChunksAreBacked | src/parser.rl:108-115 | over a whole schedule in which the first chunk keeps its length and nothing is moved, every chunk handed out lies within what was received by then, if and only if the parser never looks when exactly one byte of the next chunk is missing |
| ChunkShortfalls.ChunkOneByteShort | src/parser.rl:108-115 | the failing run: a chunk of two bytes or more of which all but the last byte has arrived is handed out |
| ChunkShortfalls.IncompleteChunkStrands | src/parser.rl:119-127 | in every schedule in which the first chunk keeps its length and nothing has been moved, a call that sees incomplete data of a later chunk returns nothing, and leaves the reader stranded if and only if the last byte received and the length of the chunk reach beyond the largest buffer |
| ChunkShortfalls.MovedFirstChunkStrands | src/parser.rl:119-127 | a call that looks at the data of the first chunk strands the reader if and only if the look ends with moving them |
| ChunkShortfalls.MovedFirstChunkStalls | src/parser.rl:119-127 | and then the reader makes no callback and never reads again, whatever arrives |
| ChunkShortfalls.CompactionStalls | src/parser.rl:119-127 | the same of the reader, with its dispatch loop: it makes no callback, and if it is stranded it never reads again, whatever arrives |
| ChunkShortfalls.CompactionRun | src/parser.rl:119-127 | a run from a complete head that gets there |
| ChunkShortfalls.BadDigitIsRejected | src/parser.rl:215-223 | a size line with a byte behind its first digit that is neither a hexadecimal digit of either case nor a carriage return leads to the error state, and no later schedule hands anything out |
| Chunks.ChunksAreDelivered | src/parser.rl:91-139 | for any list of non-empty chunks printed as frames and any schedule in which the first one keeps its length and nothing is moved, the tokens after the head are those of the chunks in order, and when the parser is done all of them, followed by one final token of length zero; with clean cuts they spell the chunks and lie within what was received |
| Chunks.ParseGetsTheNext | src/parser.rl:215-223 | once all has been received, whatever the cuts were, a call that is not held back returns the next token, if the first chunk comes out |
| Chunks.ChunksAreFinished | src/parser.rl:215-223 | as many calls as tokens are left hand out every chunk that is left and the final token |
| Chunks.DoesNotComeOut | src/parser.rl:215-223 | if the first chunk does not come out of the next look no number of calls hands it out |
| ReadBuffer.ReadLoopIsAppend | src/read_socket.c:33-59 | the read loop appends what it reads, in order, loses nothing, never shrinks the capacity nor passes the maximum, and leaves room unless the maximum is reached |
| ReadBuffer.ReadStep | src/read_socket.c:37-55 | one pass of the loop on the buffer, the socket and the ledger |
| ReadBuffer.ReadIntoBuffer | src/read_socket.c:33-59 | the loop on the buffer, the socket and the ledger is the read loop, and the ledger moves with the capacity |
| ParserObject.HshParser.Exec | src/parser.rl:241-261 | the parser object, with its loop over the bytes, does what the function of one call says, to the parser and to the buffer |
| ParserObject.HshParser.RunByte | src/parser.rl:181-232 | one pass of that loop is one transition; which bytes the transitions of the head accept is `HeadGrammar`, what they make of blanks `HeadRoundTrip.RequestReadsBack` |
| ParserObject.HshParser.RunMove | src/parser.rl:23-60 | one head transition: the actions in their order, and whether the loop is left |
| ParserObject.HshParser.DoneHeaders | src/parser.rl:62-89 | the end of the head on parser and buffer |
| ParserObject.HshParser.ReadChunk | src/parser.rl:108-128 | completing, moving or awaiting a chunk on parser and buffer |
| ParserObject.HshParser.ReadSmall | src/parser.rl:141-153 | the small body action on parser and buffer |
| ParserObject.HshParser.ReadLarge | src/parser.rl:155-174 | the large body action on parser and buffer |
| ParserObject.HshParser.RunRescan | src/parser.rl:215-223 | the looping states of the first chunk, where size actions run on chunk data |
| ParserObject.HshParser.RunChunkLine | src/parser.rl:215-223 | the size lines and line ends of a chunked body; which bytes they accept is `ChunkStream.LineErrors`, and that sizes in any spelling are read `Chunks.ChunksAreDelivered` |
| ParserObject.HshParser.Init | src/parser.rl:236-239 | a parser is made new |
| ReadSocket.ExecConsumes | src/read_socket.c:76-121 | a call after which the dispatch loop goes on has consumed at least one byte and left the length alone, which is why the loop ends on every buffer |
| ReadSocket.VisitKeepsSane | src/read_socket.c:132-155 | a visit keeps the reader within its bounds, never shrinks the buffer, and loses no byte that arrived |
| ReadSocket.DispatchIsParses | src/read_socket.c:71-121 | a run of the dispatch loop is a number of parser calls, and its callbacks and array entries are those its tokens call for |
| ReadSocket.FullBufferIsTheEnd | src/read_socket.c:37-59 | as long as the input does not end, a visit takes it for ended if and only if the buffer is consumed and full; and otherwise a visit that reads takes something of what has arrived |
| ReadBuffer.ReadLoopEnds | src/read_socket.c:37-59 | the same of the read loop: it returns zero if and only if there was no room when it was called |
| RequestObject.TokenArray.Push | src/read_socket.c:12-22 | a token is appended, the earlier ones stay, and a full array doubles |
| RequestObject.HttpRequest.ExecCallback | src/read_socket.c:65-69 | a callback is only made with the token it is about on top of the array |
| RequestObject.HttpRequest.HandOutBody | src/read_socket.c:90-113 | what is filed and called back for a body token, each token before its callback |
| RequestObject.HttpRequest.HandOut | src/read_socket.c:80-118 | what the switch over a token files, calls back, and whether the loop ends |
| RequestObject.HttpRequest.ParseBufferAndExecUserCb | src/read_socket.c:71-121 | the dispatch loop on the request object |
| RequestObject.HttpRequest.BufferInit | src/read_socket.c:24-31 | a new buffer, booked in the ledger, and a new parser |
| RequestObject.HttpRequest.FillBuffer | src/read_socket.c:61-63 | the socket is read only if the buffer has been consumed |
| RequestObject.HttpRequest.ReadRequestAndExecUserCb | src/read_socket.c:132-155 | the reader on the request object, its socket and the ledger |
| RequestObject.HttpRequest.constructor | src/connection.c:87-101 | a connection as it is accepted |
| Callbacks.RunsAreSchedules | src/read_socket.c:132-155 | every run of the reader, whatever arrives before each visit, is a schedule of reads and parser calls, and what it received, with what still waits, is what arrived |
| Callbacks.NoCallsInHead | src/read_socket.c:80-89 | no callback is made before the head is complete |
| Callbacks.HeadAnnouncesBody | src/read_socket.c:80-89 | when the head is complete the handler has run once for a streamed body or none, and not yet for a small one |
| Callbacks.LargeBodyCalls | src/read_socket.c:90-112 | a large body makes the handler run once, then one chunk callback of positive length for each piece, then one of length zero exactly when the parser is done |
| Callbacks.ChunkedBodyCalls | src/read_socket.c:90-112 | the same for a chunked body, with one callback for each chunk, if the first one keeps its length and nothing is moved |
| Callbacks.SmallBodyCalls | src/read_socket.c:90-93 | a small body makes the handler run once, when the parser is done, and no other callback |
| Callbacks.StuckReaderIsSilent | src/read_socket.c:143-155 | a reader with unread bytes and a parser that has nothing to say neither reads nor emits, whatever has arrived |
| Callbacks.LastPieceLeavesReaderStuck | src/read_socket.c:94-107 | after the last piece of a large body the reader is in that state, so a callback that calls it again changes nothing before the callback of length zero |
| Callbacks.UnreadBytesStall | src/read_socket.c:61-63 | a call that returns nothing and leaves bytes unread (an error, an over-long token) leaves the connection silent |
| Filed.LargeBodyIsFiled | src/read_socket.c:90-112 | in every schedule the token array behind the head of a request with a large body is its pieces in order, and one token of length zero when all have been handed out |
| Filed.ChunkedBodyIsFiled | src/read_socket.c:90-112 | behind the head of a chunked request it is one token for each chunk in order, and one of length zero at the end, if the first chunk keeps its length and nothing is moved |
| Filed.SmallBodyIsFiled | src/read_socket.c:90-93 | behind the head of a request with a small body it is the body, in one token |
| Filed.BodyIsFiled | src/read_socket.c:90-112 | whatever arrives, behind a head that announces a body only body tokens are filed |
| Filed.LargeBodyIsSeen | src/request_util.c:108-112 | in every schedule, what the chunk callbacks are given while they run is the bytes of the pieces in order, and nothing once when the body has been handed out |
| Filed.ChunksAreSeen | src/request_util.c:108-112 | with clean cuts they are given the data of the chunks in order, and nothing at the end |
| Filed.SmallBodyIsFound | src/api.c:101-103 | under the condition that makes a small body complete, the accessor of the body finds the bytes sent |
| Reactions.UserCodeFindsItsToken | src/read_socket.c:76-121 | in every run of the server the streamed body tokens in the array of a connection are those of its chunk callbacks, in order, and whenever user code may act, the token its last callback was about is on top |
| EndToEnd.HeadStaysReadable | src/read_socket.c:132-155 | from the end of the head on the request's method, target, version and headers lie in the buffer where the token array says, however the request was cut |
| EndToEnd.RequestWithoutBody | src/read_socket.c:80-89 | a printed request without a body, under every cut and whatever follows it: no callback in the head, then the handler, with the head readable; and no more as long as nothing has arrived after it |
| Pipelining.HandlerSeesTheHead | src/read_socket.c:80-89 | in every run of the reader, whatever follows, the visit that makes the first callback of such a request makes only that of the handler, with the tokens of the head and no others |
| Pipelining.OneHandlerForEachResponse | src/io_events.c:20-133 | in every run of the server, whatever bytes arrive, the handler of a connection on which no chunk is asked for has been called at most once more than responses have been completed |
| Pipelining.HandlerRunsAgain | src/parser.rl:198 | the run that needs a chunk to be asked for: a colon behind the head makes the handler run again |
| EndToEnd.RequestWithSmallBody | src/read_socket.c:90-93 | a printed request with a small body: no callback before it is complete, then the handler once, with the head and the whole body in one piece in the buffer |
| EndToEnd.RequestWithLargeBody | src/read_socket.c:90-112 | a printed request with a large body: the protocol, lengths that add up exactly when the parser is done, and the bytes of the body |
| EndToEnd.ChunkedRequest | src/read_socket.c:90-112 | a printed request with a chunked body: the protocol, if the first chunk keeps its length and nothing is moved, and with clean cuts the data of each chunk |
| Completion.RequestWithoutBodyIsServed | src/read_socket.c:80-89 | under every cut, when a request without a body has been received and the buffer worked off, the handler has run, once |
| Completion.RequestWithSmallBodyIsServed | src/read_socket.c:90-93 | the same with a small body |
| Completion.HeadIsFinished | src/parser.rl:241-261 | under every schedule that has received a whole head, calls that are not held back complete it |
| Completion.RequestIsFinished | src/read_socket.c:80-112 | under every schedule that has received all of a request that is not chunked, it has been finished or calls that are not held back finish it, with the body as it was sent: handler and callbacks, the pieces adding up |
| Completion.ChunkedRequestIsFinished | src/read_socket.c:90-112 | the same of every chunked request, if nothing has been moved, exactly if the first chunk comes out; if it does not, no number of calls finishes it |
| Completion.HelloRequestIsLost | src/parser.rl:215-223 | every chunked request whose body is "hello" cut after two bytes: the handler, and a chunk callback of length zero |
| Completion.LargeChunkIsStranded | src/parser.rl:119-127 | every chunked request with a chunk that does not fit behind the first one into the largest buffer strands the parser with its first byte |
| Visits.DispatchInHead | src/read_socket.c:71-121 | a run of the dispatch loop in the head of a printed request uses up the input or completes the head; then it returns, after one more call if the body is small |
| Serving.EveryRunEnds | src/read_socket.c:132-155 | every run of the reader that has been sent a request that is not chunked, in whatever pieces and however far it has got, makes all its callbacks after some more visits if there is room for it; otherwise it comes to a visit that closes the connection, with no callback made if the head is too long and only the handler's if there is no byte behind it |
| Serving.NoRoomNoService | src/read_socket.c:132-155 | without that room no run makes more callbacks than that |
| Serving.LongHeadIsClosed | src/read_socket.c:132-155 | for every size of the largest buffer a request, and a run that closes its connection with no callback made |
| ChunkServing.EveryChunkedRun | src/read_socket.c:132-155 | every run of the reader on a chunked request is in its head, has kept the first length and moved nothing, is stuck for good, or has handed out the first chunk with another length |
| ChunkServing.FinishedChunksFit | src/read_socket.c:132-155 | a run finishes a chunked request only if head, chunks and last size line fit into the largest buffer together |
| AtOnce.ReadAtOnce | src/read_socket.c:33-59 | of bytes that are all there the read loop takes as many as the buffer holds before it grows to its largest size, and then stops |
| AtOnce.ArrivesAtOnce | src/read_socket.c:132-155 | a chunked request that fits into the largest buffer and whose bytes are all there is finished by some number of visits if it survives the cut at that size, a condition on its bytes, and by no number of visits otherwise |
| AtOnce.FittingChunksAreServed | src/read_socket.c:132-155 | it is if it fits into what the buffer holds before it grows to its largest size |
| AtOnce.TextAcrossTheCutIsLost | src/parser.rl:215-223 | it is not if it is a single chunk of text across the cut |
| Wraparound.SameIds | src/parser.rl:244 | the ids of two buffers are the same if and only if the number of reads between them is a multiple of 256 |
| Wraparound.DrippedRequestIsStranded | src/parser.rl:244 | every chunked request of 255 chunks or more that arrives with one chunk in each read is stranded with a whole chunk unread |
| Accessors.WellShapedHeads | src/request_util.c:65-96 | a head in the expected order is three tokens, n pairs with n positive, and the end |
| RequestUtil.GetTokenString | src/request_util.c:19-33 | the first token of the kind, or null if there is none |
| RequestUtil.RequestChunk | src/request_util.c:108-112 | the last token of the array, so while a chunk callback runs its piece |
| Accessors.EarlierRequestsComeFirst | src/request_util.c:19-33 | an accessor finds the token an earlier request of the connection left, if there is one |
| Accessors.AnswersForThePresent | src/connection.c:79-85 | it answers for the present request if and only if no earlier one left a token of that kind, or one with the same index and length |
| Runs.TwoRequests | src/io_events.c:52-68 | the server run of a client with two requests on one connection, the first of which asks to be kept: both handlers have run, the token array has both heads, the buffer only the second |
| Runs.TargetOfTheSecond | src/request_util.c:19-33 | the target accessor in the second request is right if and only if the methods and the targets of both are equally long; with the same method and a longer target it returns the beginning of it |
| Runs.SecondTargetIsCut | src/connection.c:79-85 | the server run in which it does |
| Runs.SecondGetIsCut | src/connection.c:79-85 | such a run with two given GET requests |
| RequestUtil.CaseInsensitiveCmp | src/request_util.c:9-17 | equality up to the case of letters |
| Accessors.SameLetter | src/request_util.c:9-17 | such strings are as long, and at each place have the same character or the two cases of one letter |
| RequestUtil.Header | src/request_util.c:35-49 | the value after the first header name, of all tokens of the connection, that is the name asked for, the case of letters ignored, or null if there is none |
| Accessors.FirstRequestNames | src/request_util.c:35-49 | in the tokens of a first request these are its header pairs, and nothing else |
| RequestUtil.IterateHeaders | src/request_util.c:78-96 | one step of the iteration: the next pair, or no more |
| RequestUtil.AllHeaders | src/request_util.c:78-96 | iterating from 0 visits each header exactly once, in order, and then says there are no more |
| RequestUtil.DetectKeepAlive | src/request_util.c:51-63 | close if the first Connection header says so, or if there is none, or an empty one, and the version is 1.0; without a version the decision stays |
| KeepAlive.LookupInRequest | src/request_util.c:35-49 | in the array of a first printed request the lookup of Connection finds the value of the first header of that name, whatever its body has added |
| KeepAlive.RequestDecides | src/request_util.c:51-63 | the decision for such a request is the one its version and that header ask for |
| Reactions.FirstAnswerIsAsAsked | src/respond.c:134-143 | in every run without a directive the first answer of a connection keeps it if and only if the printed request, whatever its framing and cuts, asks for it by its version and its first Connection header |
| Reactions.FreedBufferIsLookedAt | src/request_util.c:51-63 | with the buffer released before the answer and no directive, of two memories that are both possible one keeps the connection and one does not |
| Reactions.AutomaticUntilDirected | src/connection.c:87-101 | without a directive the decision stays with the server |
| RequestUtil.SetKeepAliveFlag | src/request_util.c:98-106 | user code decides, and the decision is no longer automatic |
| Reactions.DirectivesStand | src/respond.c:134-143 | in every run, after a directive every reply made carries it, whatever the requests say: a directive to keep for good, one to close until another head is announced; and after a complete response on a connection to be closed it is being written or closed |
| Reactions.DirectivesDecide | src/io_events.c:52-68 | when the last byte of such a response has been accepted the connection goes on to its next request, unless its input has ended, or is closed, as the directive says |
| Reactions.LaterChunksKeepTheDecision | src/respond.c:197-226 | the decision is made once for a chunked response: its later chunks and its end keep it, whatever lies in memory by then |
| Connection.DispatchAnnounces | src/read_socket.c:80-89 | a run of the dispatch loop announces a body, or none, exactly if it ends with calling the handler at the end of a head |
| Reactions.AnnouncingSetsTheBit | src/read_socket.c:80-89 | exactly such a visit sets the bit that stands for keep-alive |
| OutputBuffer.PutIsExact | src/respond.c:89-122 | a piece is appended as it is if and only if it is copied, is empty, or leaves room for its terminating zero; what was written before stays |
| OutputBuffer.OutputIsConcatenation | src/respond.c:89-122 | the contents are the concatenation of the pieces if and only if every formatted piece fits strictly, and then the size is within the capacity |
| OutputBuffer.PrintsFitIfShort | src/respond.c:101-122 | formatted pieces before copied ones fit if and only if together they stay below the capacity |
| OutputBuffer.DoubledAsNeeded | src/respond.c:110-111 | the capacity is doubled as often as necessary, and not once more |
| OutputBuffer.GrowBuf.constructor | src/respond.c:80-87 | an empty output buffer, booked in the ledger |
| OutputBuffer.GrowBuf.Memcpy | src/respond.c:89-99 | copying on the array, with growth to the exact size |
| OutputBuffer.GrowBuf.Vsnprintf | src/respond.c:105-106 | formatting into the room left, a terminating zero included |
| OutputBuffer.GrowBuf.Printf | src/respond.c:101-122 | printing on the array, with doubling, and the count added twice |
| Respond.HttpResponse.SetHeader | src/respond.c:171-180 | a header goes in front of the list |
| Respond.HttpResponse.SetStatus | src/respond.c:229-231 | a status outside 100 to 599 becomes 500 |
| Respond.LastSetComesFirst | src/respond.c:171-180 | the list is in reverse order of the calls |
| Respond.SerializeHeadersList | src/respond.c:124-132 | the headers in list order and the blank line, piece by piece |
| Respond.SerializeHeaders | src/respond.c:134-150 | the Connection header, the status line, the content length unless chunked, and the list; what a client reads there is `ResponseHead` |
| Respond.HeaderListReadsBack | src/respond.c:124-132 | the parser, reading a serialized list after any request line, returns its names and values in list order and then the end of the head |
| ResponseHead.WholeReplyReadsBack | src/respond.c:134-150 | of a whole response the text up to the first line end is the version, the decimal digits of the status and the reason; the header grammar over the rest returns Date with the date, Content-Length with digits that make the length of the body, Connection with keep-alive or close, and the headers in list order; the body follows; and a parser would expect just that body, if user code sets no such field |
| ResponseHead.ChunkReplyReadsBack | src/respond.c:134-150 | the same for the first chunk of a response, with Transfer-Encoding and without a length; the frame of the chunk follows |
| ResponseHead.ClientReadsTheResponse | src/write_socket.c:20-50 | in every run, when everything has been written, that is what a client reads where a whole response begins |
| ResponseHead.ClientReadsTheChunks | src/write_socket.c:20-50 | and where a chunked one does |
| Respond.ResponseText | src/respond.c:184-193 | a response is exactly its head and its body if and only if the head is shorter than the initial buffer; the size of the body does not matter |
| Respond.ChunkText | src/respond.c:207-211 | a chunk is printed exactly if and only if all of its output is shorter than the initial buffer |
| Respond.EndIsExact | src/respond.c:216-226 | the same for the end of a chunked response |
| Respond.ReplyIsPrinted | src/respond.c:184-226 | each of the three replies goes out as meant if and only if it is short in this sense, whatever lay in memory |
| Respond.RespondWhole | src/respond.c:184-193 | the output buffer of a whole response |
| Respond.RespondChunk | src/respond.c:197-212 | the output buffer of a chunk, with the head if it is the first |
| Respond.RespondChunkEnd | src/respond.c:216-226 | the output buffer of the end |
| Connection.VisitAppends | src/read_socket.c:76-121 | a visit only appends to the token array and to the callbacks made, and never shrinks the buffer |
| Connection.ReplyIsNotEmpty | src/respond.c:184-226 | a reply is never empty, so a connection that starts to write has something to write |
| IoEvents.BufferFree | src/buffer_util.h:10-17 | the buffer is released and its capacity taken off the ledger, once, and nothing happens if that has been done |
| IoEvents.TerminateConnection | src/connection.c:70-77 | the connection is closed and holds no buffer |
| IoEvents.ReadSocketAndHandleReturnCode | src/io_events.c:20-38 | reading on the request object, closing at the end of the input |
| IoEvents.BeginRead | src/io_events.c:189-193 | starting to read |
| IoEvents.WriteSocket | src/write_socket.c:20-50 | the bytes the socket takes are those next in line, progress advances by them, and the code says what is next |
| IoEvents.WriteSocketAndHandleReturnCode | src/io_events.c:42-69 | writing on the request object, with the release of the buffer and the next state |
| IoEvents.BeginWrite | src/io_events.c:167-171 | starting to write |
| IoEvents.OnClientConnectionEvent | src/io_events.c:115-122 | a socket event does what the session state says |
| IoEvents.OnRequestTimerEvent | src/io_events.c:124-133 | a timer event counts down and closes at zero |
| IoEvents.InstallResponse | src/respond.c:152-166 | the output buffer takes the place of the request's, which is released |
| IoEvents.PerformResponse | src/respond.c:152-168 | the reply is put in place and written |
| IoEvents.DecideKeepAlive | src/respond.c:136-138 | the decision, detected from the tokens of the connection if it is left to the server |
| IoEvents.RequestRespond | src/respond.c:184-193 | a whole response on the request object, with that decision |
| IoEvents.RequestRespondChunk | src/respond.c:197-212 | a chunk on the request object, with that decision if it is the first |
| IoEvents.RequestRespondChunkEnd | src/respond.c:216-226 | the end of a chunked response on the request object |
| IoEvents.RespondError | src/respond.c:250-257 | a short reply for errors, with any code |
| IoEvents.BeginRequestCycle | src/io_events.c:77-82 | a new connection is refused while the estimate is above the limit, and read from otherwise |
| IoEvents.AcceptAndBeginRequestCycle | src/io_events.c:71-84 | the accept loop: all clients that wait are accepted in order, the ledger moves along, and the server is the one after that many Accept events |
| Server.After | src/io_events.c:42-133 | after every run: a live connection that writes holds a buffer with something left to write, one that reads holds a request buffer within bounds, its timeout is positive and at most 20, a closed one holds none, and the bytes accepted are the promised ones less those still in the buffer |
| Server.HandleKeepsWell | src/io_events.c:20-133 | every event keeps this of the connection it concerns |
| Server.CompletionDecides | src/io_events.c:52-68 | what follows the last byte of a reply: the next chunk, the next request with a new buffer, or the end |
| Server.NothingElseChanges | src/api.c:28-30 | releasing the buffer and giving a directive change nothing else |
| Server.BrokenPipeCloses | src/write_socket.c:29-31 | a broken pipe closes the connection, kept alive or not and whatever is left to write, and its buffer is released |
| Server.LedgerIsExact | src/respond.c:80-122 | after every run of any number of connections the estimate is the sum of the capacities of all live buffers, less the growth done by the parser so far |
| Server.DoKeepsLedger | src/respond.c:80-122 | every event keeps this, and the unbooked growth never shrinks |
| Growth.DispatchGrows | src/parser.rl:82-85 | a run of the dispatch loop makes the buffer grow exactly if it completes the head of a request with a small body, and then to what head and body need |
| Debt.VisitGrows | src/parser.rl:82-85 | what a visit adds to the buffer after reading is that, and nothing else |
| Debt.HandleAddsDebt | src/parser.rl:82-85 | every event adds to the unbooked growth exactly what the visits it makes resize for small bodies |
| Debt.EstimateLessTheResizes | src/respond.c:80-122 | after every run the estimate is the sum of the capacities of all live buffers less the sum of these resizes |
| Runs.LedgerFallsBehind | src/parser.rl:82-85 | one head with a small body that does not fit into the initial buffer leaves the estimate short by the difference |
| Runs.EstimateGoesNegative | src/buffer_util.h:10-17 | when that client has been timed out, the estimate is negative by that much |
| Runs.PostIsNotCounted | src/parser.rl:82-85 | such a run with a given POST request |
| Server.BuffersAreReleasedOnce | src/buffer_util.h:10-17 | every buffer ever allocated is held by exactly one connection or has been released exactly once |
| Server.OthersAreLeftAlone | src/io_events.c:115-133 | an event changes no connection but its own |
| Server.IdleConnectionsTimeOut | src/io_events.c:124-133 | without socket and user activity a connection is closed by exactly as many timer events as its timeout says, whatever other connections do, and nothing else changes before |
| Server.ActivityStartsTheTimeout | src/read_socket.c:135-136 | every read and every write, be it partial, starts the timeout anew, and nothing else but a timer event touches it |
| Server.KeepAliveTimeoutIsOverwritten | src/io_events.c:45-46 | the longer timeout is replaced in the same step |
| Server.RefusalFits | src/io_events.c:77-79 | the reply to a refused client fits the initial buffer with any date of up to 31 characters |
| Wire.WireIsTheReplies | src/write_socket.c:20-50 | after every run the bytes a client has are the replies made to it, in order: a prefix while writing, all of them afterwards |
| Wire.WholeReplyText | src/respond.c:134-150 | a whole response is a head that announces the length of the body, and the body; what a client makes of it is `ResponseHead.WholeReplyReadsBack` |
| Wire.ChunkedResponse | src/respond.c:197-226 | a run of chunks and an end are one head with Transfer-Encoding and without a content length, a frame for each chunk, the last chunk, the trailers, and the line ends the code prints |
| Wire.ChunkedResponseArrives | src/io_events.c:42-69 | in every run, when it has been written, that is what the client has; the part after the head is a stream that module Chunks decodes |
| Wire.RefusedClientsAreTold | src/io_events.c:77-79 | a client refused gets that reply, and its connection is being written to or closed |
| Service.RequestsAreSchedules | src/io_events.c:189-193 | in every run a connection that is not writing and holds a buffer has done for its request what some schedule of reads and parser calls does, and the bytes that schedule received, with those still at the socket, are the last ones that have arrived |
| Service.FirstRequestIsSchedule | src/io_events.c:189-193 | for the first request of a connection that schedule has received all that arrived, from the first byte on, but what is still at the socket, and all tokens and callbacks are its own |
| Service.VisitLater | src/read_socket.c:132-155 | the tokens and callbacks of earlier requests make no difference to a visit |

## Left out

- Socket setup, accept and listen, registration with epoll or kqueue, timers and the date (`src/server.c`, `src/connection.c:20-66`): they appear as events and parameters only.
- The accept loop takes the clients that wait as a list; which sockets accept returns is up to the environment.
- The table of status texts (`src/respond.c:17-72`): the text is a parameter.
- Failure of malloc and realloc, pointer identity, and undefined behaviour. A call of the parser with the index past the length, which follows a chunk handed out one byte early, is taken to find no input; the C loop would read on.
- Respond.SerializeHeadersList: requires that the count is within the capacity whenever a piece is printed, because beyond that the C code passes a negative size to vsnprintf, and what that does is undefined.
- Respond.SerializeHeaders: the same.
- Respond.RespondWhole: the same.
- Respond.RespondChunk: the same.
- Respond.RespondChunkEnd: the same.
- IoEvents.RequestRespond: the same, and what `IoEvents.DecideKeepAlive` requires.
- IoEvents.RequestRespondChunk: the same.
- IoEvents.RequestRespondChunkEnd: requires the first of these.
- IoEvents.RespondError: requires both.
- RequestUtil.Header: requires that a token follows every header name and that both lie in `mem`, which stands for the memory the buffer starts in; in a first request they lie in what has been received (`EndToEnd.HeadStaysReadable`), in a later one they may not, and the C code does not look.
- RequestUtil.DetectKeepAlive: the same, and that a version found is not empty and lies in the buffer.
- Widths of integers, except the 8-bit sequence id: lengths and capacities are unbounded. `Digits.DecimalRoundTrip` and `Digits.HexRoundTrip` bound every intermediate value by the number printed; a header that announces more than 64 bits hold is not modelled as overflowing.
- Bytes are Dafny characters; the parser only ever distinguishes ASCII characters.
- The request buffer is the string of the bytes written so far with a capacity beside it, not an array; what calloc and realloc leave behind it is not modelled. The output buffer is an array.
- A stale errno: an EPIPE is taken to be the result of the write at hand.
- User code: callbacks are recorded with their tokens, and what user code does in them is a later step, once per callback. Responding twice, responding before the callback of length zero, and asking for a chunk of a request without a body are not modelled as behaviour of user code.
- IoEvents.DecideKeepAlive: requires that every header name is followed by a token and that these lie in `mem`, the memory that begins with the buffer, and the version too; for a first request any such memory will do (`KeepAlive.RequestDecides`). When user code has released the buffer before it answers without a directive, C reads through a null pointer; the model then takes any memory.
- The token HSH_TOK_ERR is never produced, so the branch that answers 400 is not there.
- The memory of token arrays, requests and responses, which the ledger does not count either.
- Chunks.ChunksAreDelivered: requires that the looks at the first chunk keep its length and that incomplete data need not be moved, and for the data of the chunks that no call looks when exactly one byte of the next chunk is missing; `ChunkShortfalls` shows that each of the three is needed, and what happens otherwise.
- ChunkShortfalls.FirstChunkExactly: says of a first chunk that is moved only that the tokens before it stay; `ChunkShortfalls.MovedFirstChunkStalls` says what becomes of the reader.
- AtOnce.ArrivesAtOnce: is about bytes that are all there when the reader first looks; of other arrivals `ChunkServing.EveryChunkedRun` and `Completion.ChunkedRequestIsFinished` say what a run comes to, not which arrivals would save a chunk across the cut.
- Callbacks.LastPieceLeavesReaderStuck: the reader's own call within the last callback is shown to change nothing; the two callbacks are otherwise recorded as made in one go.
- Liveness of the server: `Completion` and `Serving` speak of requests whose bytes have arrived and of visits that are made; that a socket delivers bytes and that user code asks for them is up to the environment.
- Tests, fuzzing, build files and the generated single header.
