# JtRPC: a verified model

JtRPC multiplexes requests, responses and streams over one byte connection. This project models its
Go server and client, the Go and Rust header blocks, the concurrent life of a request in the Julia
client, and the type expressions of its interface compiler; and proves what each of them promises.

Check everything with `dafny verify dfyconfig.toml`.

| files | what they model |
|---|---|
| `Bytes` | little-endian integers; shared value types |
| `ClientLifecycle`, `LifecycleTheorems` | `send!`, `listen_conn!`, `handle_resp!` and `close!` of the Julia client, interleaved at every lock, write, read and swap by any number of threads |
| `Wire` | the three frames: writers that fill a buffer by offset, readers, and the exact reach of their round trips |
| `Server` | the Go connection loop as a byte parser, and the frame dispatcher it refines |
| `Accounting` | the same loop interleaved with handler goroutines and stream senders that share one locked writer |
| `ClientDemux`, `DemuxTheorems`, `DemuxDelivery` | the Go client's two-stage reader among callers that register, take, receive and close, and what it closes when it stops; which runs panic or hang; what each id gets; and server and client together |
| `HeaderList`, `HeaderStates`, `HeaderScan`, `Headers`, `HeaderHistory` | the Go `Headers` object in its raw and parsed forms, and association lists as its simple form |
| `RustHeaders` | the Rust header block, and how it compares with the Go one |
| `StreamQueue`, `StreamLane`, `StreamClose` | a stream's bounded channel with its overflow list, call by call and under interleaving, and the race to close it |
| `Types`, `TypeSyntax`, `StructSyntax`, `FileSyntax` | type expressions, their sizes, their parser, struct definitions, function lines and whole files |
| `Readers` | the proxy's replaying connection and the counting body reader |
| `Mux` | middleware over any history of registrations |

Code that changes state is a class or a method with the source's loops; it is proved equal to a
specification function, and the laws are proved about that function. Protocols under interleaving are
step systems: a state, the steps each thread may make, and lemmas over every run. A slice out of range,
a send on a closed channel and a nil dereference are the outcome `Panic` or a `panicked` flag, never a
precondition.

Where code and intent part, the model follows the code, a lemma names an input that shows it, and
another states for which inputs the code does what it is meant to:

- `Headers.Encode` is documented to refuse headers whose encoding is too long, but counts only key and
  value bytes (`HeaderStates.EncodeLaw`, `HeaderStates.EncodeCanExceedMax`); the two-byte length of the
  frame then wraps (`Wire.RequestRoundTrip`, `Wire.ResponseRoundTrip`).
- `Headers.Parse` adds the two lengths of an entry in 16 bits, and four bytes from any client make it
  slice out of range (`HeaderStates.ParsePanicsIff`, `HeaderStates.ReceivedParsePanicsIff`,
  `HeaderStates.ParseCanPanic`).
- `Headers.RemoveChecked` compares with four bytes too many (`HeaderStates.RemoveSafeIff`,
  `HeaderStates.RemoveCanPanic`), and Rust's `get` and `remove` slice before they check
  (`RustHeaders.RustSafeIff`, `RustHeaders.RustCanPanic`); none of it matters on a well-formed block
  (`RustHeaders.RustAgreesWithGo`).
- A stream message for an unknown stream leaves the reader inside the frame, and one that its stream
  does not take ends the server's loop (`Server.AlignedIff`, `Server.LoopUntilRefused`,
  `ClientDemux.FrameRouted`).
- `RespChan.Close` never sets the flag that it and `send` look at: a channel that its caller closes is
  closed again when the connection ends, or sent its response, and either panics
  (`DemuxTheorems.ReaderPanicsIff`, `DemuxTheorems.AnswerToClosedPanics`,
  `DemuxTheorems.StopAfterClosePanics`).
- When the connection ends with a stream still open the client never gets to close its channels: closing
  a stream takes a lock that `closeWithErr` holds (`ClientDemux.Client.CloseWithErr`).
- `addMsg` steps over every other element of the overflow list and may dereference nil
  (`StreamQueue.AddKeepsOrderIff`, `StreamQueue.AddPanicsIff`), which happens when it runs inside a
  `Recv`, or else leaves that `Recv`, and with it every later `addMsg`, waiting
  (`StreamQueue.InterruptedIff`, `StreamQueue.InterruptionReachable`, `StreamLane.PutInsideReceive`).
- A close between the check of `addMsg` and its first send panics whatever is queued
  (`StreamLane.ClosedSinceCheckPanics`), and `Recv` after closing may send on a closed channel
  (`StreamQueue.CloseIsCleanIff`). `StreamLane.RunPanicsIff` is the exact condition for a stream, and on
  an open stream whose `Recv` is not interrupted between its two halves nothing of this can happen
  (`StreamQueue.RunIsFifo`).
- `send!` does not check for a duplicate id, so request 2^64 + 1 replaces the entry of the first
  (`LifecycleTheorems.IdReuseLosesAChannel`); up to 2^64 requests the other theorems hold of ids as
  values. The byte conversion shifts the top byte of an id by 54 (julia/JtRPC/src/JtRPC.jl:494), so in
  the code ids are read back right only below 2^56.
- The language documentation writes optional types with a question mark and gives `[str,[str,iv;5]]`
  as an example; the parser refuses both (`TypeSyntax.OptionalRefused`, `TypeSyntax.NestedLengthRefused`).

## Model

| member | source | states |
|---|---|---|
| `ClientLifecycle.StepKeepsInv` | julia/JtRPC/src/JtRPC.jl:303-467 | every step of a sender, the listener, the server, a closer or a caller keeps the invariant: locks are held exactly where the code is, a half-written frame implies an open connection, table entries are unclaimed requests, open requests are in the table |
| `LifecycleTheorems.ReachableInv` | julia/JtRPC/src/JtRPC.jl:303-467 | the invariant holds after every interleaving of at most 2^64 calls |
| `LifecycleTheorems.NoResponseIsUnknown` | julia/JtRPC/src/JtRPC.jl:322-336 | a request on the wire whose response nobody has read is in the table, or its sender holds the table lock, unless its write threw, closing swept the table, or the listener has come to read inside a frame; so the listener finds the entry of every response it looks up |
| `LifecycleTheorems.OwnResponseAtMostOnce` | julia/JtRPC/src/JtRPC.jl:342-377 | each channel gets at most one response, and it is its own unless the listener has come to read inside a frame |
| `LifecycleTheorems.FramesStayWhole` | julia/JtRPC/src/JtRPC.jl:303-377 | which takes a write that threw, or a sweep |
| `LifecycleTheorems.Garbles` | julia/JtRPC/src/JtRPC.jl:322-336 | exactly a half-written frame and a response looked up in vain make the listener read inside a frame |
| `LifecycleTheorems.RequestServed` | julia/JtRPC/src/JtRPC.jl:303-450 | from a quiet client a request can be sent, served and answered, and then its channel holds its response and is closed, its entry is gone, and everything else is as it was |
| `LifecycleTheorems.DeliveredIsClosed` | julia/JtRPC/src/JtRPC.jl:365-376 | in every run a channel that has its response is closed, but for the one the listener is about to close |
| `LifecycleTheorems.FailureLeaves` | julia/JtRPC/src/JtRPC.jl:326-334 | a failed read, and a put into a closed channel, end the listener's loop |
| `LifecycleTheorems.LeftForGood` | julia/JtRPC/src/JtRPC.jl:334-339 | after that it never reads, looks up or puts anything again |
| `LifecycleTheorems.ListenerClosesClient` | julia/JtRPC/src/JtRPC.jl:339-339 | a listener that is gone has entered `close!`, and once that call is past its swap the client is closed |
| `LifecycleTheorems.ClosedRefuses` | julia/JtRPC/src/JtRPC.jl:403-404 | once the client is closed no call of `send!` passes its check |
| `LifecycleTheorems.OneClosesTheClient` | julia/JtRPC/src/JtRPC.jl:452-454 | of any number of calls of `close!` at most one runs its body |
| `LifecycleTheorems.AfterCloseNothingIsLost` | julia/JtRPC/src/JtRPC.jl:440-467 | after `close!` has finished, under any later steps: the table stays empty, nothing can be registered, and every channel a caller was given is delivered to, closed, or the one the listener holds |
| `LifecycleTheorems.SendersNeverDeadlock` | julia/JtRPC/src/JtRPC.jl:440-448 | whenever a sender is not done, it or the holder of a lock it needs can make its next step; a write counts as failing only once the connection is closed |
| `LifecycleTheorems.SenderCanFinish` | julia/JtRPC/src/JtRPC.jl:440-448 | from every such state the steps of the sender and of the lock holders alone bring it to its end |
| `LifecycleTheorems.CloserNeverDeadlocks` | julia/JtRPC/src/JtRPC.jl:452-467 | the same for the call that closes the client, which waits for the write lock and then for the table lock |
| `LifecycleTheorems.CloserCanFinish` | julia/JtRPC/src/JtRPC.jl:452-467 | from every such state its steps and those of the lock holders alone finish the sweep |
| `LifecycleTheorems.EveryCallCanEnd` | julia/JtRPC/src/JtRPC.jl:403-467 | after any run each call of `send!` and the winning call of `close!` can be completed so |
| `LifecycleTheorems.IdReuseLosesAChannel` | julia/JtRPC/src/JtRPC.jl:405-409 | a run of 2^64 + 1 calls after which a returned channel is neither delivered to, closed, held nor in the table |
| `Wire.WriteRequest` | go/req_resp.go:589-611 | the buffer filled by offset, path, headers and body are the frame of SPEC.v2.md |
| `Wire.WriteResponse` | go/req_resp.go:793-824 | the same for a response |
| `Wire.WriteMessage` | go/stream.go:288-306 | the same for a stream message, with the top flag set |
| `Wire.RequestLayout` | SPEC.v2.md:9-18 | where each part of a request stands in its bytes |
| `Wire.ResponseLayout` | SPEC.v2.md:20-28 | where each part of a response stands |
| `Wire.MessageLayout` | SPEC.v2.md:30-35 | where each part of a stream message stands, and that its top flag is set |
| `Bytes.LittleEndian` | go/other.go:15-29 | the low byte comes first |
| `Wire.RequestFromReader` | go/req_resp.go:494-523 | reads exactly one request off the connection, refuses a body over the limit after its head, and fails when bytes run out |
| `Wire.ResponseFromReader` | go/req_resp.go:828-856 | reads exactly one response |
| `Wire.RequestRoundTrip` | go/req_resp.go:494-611 | reading undoes writing and leaves any trailing bytes, if and only if path and encoded headers are at most 65535 bytes; a body over the limit is refused |
| `Wire.RequestPrefixFails` | go/req_resp.go:494-523 | every strict prefix of an encoding is refused |
| `Wire.RequestReadBack` | go/req_resp.go:494-523 | what is accepted is the encoding of what is returned, if and only if the declared body length is below 2^63 |
| `Wire.HugeLengthReadsNothing` | go/req_resp.go:494-523 | a declared body length of 2^63 or more reads no body and is not refused |
| `Wire.ResponseRoundTrip` | go/req_resp.go:793-856 | reading undoes writing, if and only if the encoded headers are at most 65535 bytes |
| `Wire.MessageTailRoundTrip` | go/stream.go:288-306 | the length and body of a stream message are read back, and what follows is left |
| `Server.ServerConn.HandleServerConn` | go/server.go:213-253 | over the whole connection, the events of every turn are those of the specified loop |
| `Server.ServerConn.HandleReq` | go/server.go:314-453 | each branch (too large, wrong kind of path, unknown path, dispatched, cut short) reads what it must and does what it must |
| `Server.ServerConn.HandleStreamMsg` | go/server.go:256-312 | the same for too large, close and queued stream messages; a closed stream is sent no refusal; a message it refuses, or an `addMsg` that panics or never returns, ends the loop |
| `Server.FrameStep` | go/server.go:213-453 | on a well-formed frame for a registered stream, and whatever follows it, a turn consumes exactly the frame and does exactly what the frame dispatcher says; it goes on unless the stream does not take the message |
| `Server.AlignedIff` | go/server.go:231-310 | the loop goes on at the next frame if and only if a stream message names a registered stream and closes it, is too large, or finds it open and is taken by `addMsg` |
| `Server.CutFrameStops` | go/server.go:213-453 | a frame cut short anywhere ends the loop; no handler is started and nothing is queued for it |
| `Server.LoopDispatches` | go/server.go:213-453 | on the concatenation of any such frames the loop takes one turn a frame, in order, with the dispatcher's events, while streams are opened, closed and removed |
| `Server.LoopUntilCut` | go/server.go:213-453 | when the connection ends after or inside a frame, all whole frames are dispatched and the last turn only refuses |
| `Server.LoopUntilRefused` | go/server.go:248-310 | a message that its stream does not take ends the loop: what precedes it is dispatched, and nothing after it is read |
| `Server.RequestRouted` | go/server.go:333-453 | a request within the limit starts the handler of its kind and path; a stream request for a regular path is answered 130, any other unknown path 128 |
| `Server.RequestTooLarge` | go/server.go:326-332 | one past the limit is answered 133 with its declared length in decimal |
| `Server.MessageRouted` | go/server.go:256-312 | a stream message within the limit closes its stream with its body, is queued, or ends the loop |
| `Server.MessageTooLarge` | go/server.go:266-301 | one past the limit is answered with the limit |
| `Server.ClosedTooLarge` | go/stream.go:95-100 | but not on a closed stream |
| `Server.UnknownAnswered` | go/server.go:238-247 | one for an unknown stream is answered so |
| `Server.AnswersFit` | go/req_resp.go:891-923 | each answer of the loop is for the frame's id, has another status than OK, and fits a frame |
| `Mux.StartsWhatIsHandled` | go/server.go:341-406 | the loop starts a handler exactly when the mux has one of that kind for the path |
| `Accounting.OneResponsePerRequest` | go/server.go:314-453 | a turn on a request answers it once or starts one handler; a turn on a stream message does neither |
| `Accounting.StepBalances` | go/server.go:314-453 | every step of loop, handlers and writers keeps, for each id, requests read equal to responses written plus in flight |
| `Accounting.StepKeepsWhole` | go/req_resp.go:793-824 | while a frame is written in pieces under the lock, the output is whole frames and one beginning |
| `Accounting.ResponsesConserved` | go/server.go:314-453 | for every interleaving both of these hold, and the frames read are the first ones of the input |
| `Accounting.QuietServerAnsweredAll` | go/server.go:314-453 | once nothing is in flight each id has as many responses as requests |
| `Accounting.OutputsConserved` | go/server.go:314-453 | for every interleaving, what is written and what still waits is exactly what the loop and the handlers gave, each frame unchanged and as often |
| `ClientDemux.Client.Run` | go/client.go:67-96 | the tables after the reader has stopped, hung or met a panic are those of the specified loop and of its last act |
| `ClientDemux.Client.CloseWithErr` | go/client.go:199-221 | the reader waits for ever on a stream that is still open; else it closes every response channel, and panics on one that is closed already |
| `ClientDemux.Client.HandleResp` | go/client.go:98-129 | a response is decoded as at once, opens a stream if it should, and goes to its id's channel; sending on a channel its caller has closed panics |
| `ClientDemux.Client.HandleStreamMsg` | go/client.go:131-151 | a message closes its id's stream, is refused by a closed one, or is added once the reader has the lock, among whatever callers do in between |
| `ClientDemux.TwoStages` | go/client.go:67-129 | reading nine bytes, then the rest by the table, gives the status, headers and body of `Response.ReadFrom` |
| `ClientDemux.FrameRouted` | go/client.go:67-151 | a turn ends at the next frame if and only if the id is known; then the frame changes just what it should, whatever callers do while it is read |
| `ClientDemux.LoopRoutes` | go/client.go:67-151 | on the concatenation of any frames with known ids the reader routes each in wire order, whatever callers register, take, receive or close in between, until it hangs or a goroutine panics |
| `ClientDemux.CutFrameStops` | go/client.go:67-151 | a frame cut short anywhere ends the loop, and nothing of it reaches the tables |
| `ClientDemux.LoopUntilCut` | go/client.go:67-151 | when the connection ends after or inside a frame, all whole frames are routed and the last leaves no trace |
| `DemuxTheorems.PanicsIff` | go/client.go:67-277 | a run of reader and callers panics if and only if some id's own events do it: its response channel is closed when its caller or the stopping reader has closed it, or is sent its response after that; or one of its streams meets a hazard |
| `DemuxTheorems.ReaderPanicsIff` | go/client.go:67-277 | the same for the reader from its first frame to its stop, and for what callers do afterwards |
| `DemuxTheorems.AnswerToClosedPanics` | go/client.go:248-277 | closing a channel before its response arrives makes the reader panic |
| `DemuxTheorems.StopAfterClosePanics` | go/client.go:213-216 | so does closing one and then losing the connection |
| `DemuxTheorems.HangsIff` | go/client.go:148-148 | a turn hangs if and only if it has a message in hand for a stream where a receiver waits for room with the lock |
| `DemuxTheorems.RoutesHappen` | go/client.go:67-151 | the reader's run on whole frames is the sequence of these events |
| `DemuxDelivery.OwnStream` | go/client.go:121-151 | whatever the other ids do: an id's streams live by its own events alone, its last one is given its own messages in wire order up to its closing, which `OwnMark` says when it is, and of what a stream was given nothing is lost or duplicated |
| `DemuxDelivery.OwnStreamInOrder` | go/stream.go:69-175 | if each message is added in an orderly state, what a stream received followed by what it holds is what it was given |
| `DemuxDelivery.CloseFrameCloses` | go/client.go:145-146 | a close frame for an open stream sets its flag, closes its channel and takes it out of the table, and changes nothing else |
| `DemuxDelivery.OwnMark` | go/stream.go:211-230 | an id's last stream is closed exactly if, since it was opened, a close frame was heard, a caller closed it, or the stopping reader got stuck on it; and likewise for its channel and its place in the table |
| `DemuxDelivery.StuckIff` | go/client.go:206-212 | the stopping reader gets stuck exactly if a stream in the table is not closed |
| `DemuxDelivery.OwnResponses` | go/client.go:248-257 | a channel gets its own responses, in wire order, except those that find an earlier one waiting; of a single response none is lost |
| `DemuxDelivery.WrittenFits` | go/req_resp.go:793-824 | everything the server writes is a frame the client can read, if what its handlers return and send is |
| `DemuxDelivery.RequestIsAnswered` | go/server.go:314-453 | server and client together: under any interleaving, unless the reader hangs or a goroutine of the client panics, an id requested once has exactly one response, the one written for it, in its own channel or taken from it, also after the reader has stopped |
| `HeaderList.WellFormedIsEncoding` | go/req_resp.go:300-322 | the well-formed blocks are exactly the encodings, and a block has one reading |
| `HeaderList.ScanDecompose` | go/req_resp.go:300-322 | every byte string splits into its complete entries, encoded, and an incomplete tail |
| `HeaderList.EntryLayout` | go/req_resp.go:224-227 | where lengths, key and value of an entry stand |
| `HeaderList.RemoveFirstSplits` | go/req_resp.go:390-417 | removing deletes exactly the first entry with the key |
| `HeaderList.FirstIsLast` | go/req_resp.go:181-200 | with distinct keys, first match and last wins agree |
| `HeaderStates.ParsePanicsIff` | go/req_resp.go:185-198 | on every byte string `Parse` panics if and only if the two lengths of some complete entry sum past 16 bits, or those of the incomplete last one do and the wrapped sum fits what is left |
| `HeaderStates.ReceivedParsePanicsIff` | go/req_resp.go:185-198 | in a block short enough for a frame only the incomplete last entry can |
| `HeaderStates.ParseCanPanic` | go/req_resp.go:185-198 | a four-byte block on which `Parse` panics |
| `HeaderStates.RemoveSafeIff` | go/req_resp.go:396-412 | `RemoveChecked` is safe for every key if and only if the block does not end in an entry short by at most four bytes |
| `HeaderStates.RemoveCanPanic` | go/req_resp.go:396-412 | a five-byte block on which it panics |
| `HeaderStates.EncodeLaw` | go/req_resp.go:212-231 | `Encode` succeeds if and only if keys and values total at most MaxHeadersLen, in whatever order; the length is what `EncodedLen` said, and `Parse` gives the map back |
| `HeaderStates.EncodeCanExceedMax` | go/req_resp.go:212-231 | a map whose successful encoding is longer than MaxHeadersLen |
| `HeaderStates.GreedyMaximal` | go/req_resp.go:246-269 | for any entries in any order, no left-over entry still fits the budget |
| `HeaderStates.EncodePLaw` | go/req_resp.go:246-269 | for every order, encoded and left-over parts are disjoint and together the map, the bytes parse to the encoded part, and nothing left over would fit |
| `Headers.Headers.GetChecked` | go/req_resp.go:300-322 | first match on raw bytes, lookup on a map |
| `Headers.Headers.Parse` | go/req_resp.go:181-200 | the map in which the last entry of a key wins, or the panic; the object then holds the map |
| `Headers.Headers.Set` | go/req_resp.go:332-348 | appends an encoded entry unless the block would exceed MaxHeadersLen |
| `Headers.Headers.EncodedLen` | go/req_resp.go:277-286 | four more than key and value for each entry, whatever the order of the walk |
| `Headers.Headers.Encode` | go/req_resp.go:212-231 | the encoding of the map in the order walked; on failure nothing changes |
| `Headers.Headers.EncodeP` | go/req_resp.go:246-269 | the greedy split of the map in the order walked |
| `Headers.Headers.SetAll` | go/req_resp.go:356-365 | replaces everything; a failure on raw headers leaves the old bytes |
| `Headers.Headers.RemoveChecked` | go/req_resp.go:390-417 | the in-place splice removes the first match and nothing else, or slices out of range on an incomplete tail |
| `HeaderHistory.StepAgrees` | go/req_resp.go:181-417 | on a well-formed block whose entries are narrow every operation answers as an association list or map does, never panics, and stays in step with it |
| `HeaderHistory.HistoryAgrees` | go/req_resp.go:181-417 | so does any history of operations |
| `HeaderHistory.ReceivedStands` | go/req_resp.go:494-523 | a well-formed block received in a frame is such a block |
| `RustHeaders.InnerHeaders.Get` | rust/src/headers.rs:175-190 | first match by advancing slices, with its panics |
| `RustHeaders.InnerHeaders.Set` | rust/src/headers.rs:192-211 | appends as the Go one does |
| `RustHeaders.InnerHeaders.Remove` | rust/src/headers.rs:222-243 | `split_off` twice removes the first match and nothing else |
| `RustHeaders.Collect` | rust/src/headers.rs:284-308 | a full run of the iterator yields exactly the complete entries, on every byte string |
| `RustHeaders.RustAgreesWithGo` | rust/src/headers.rs:175-243 | wherever neither panics Rust and Go agree on answers and bytes; on a well-formed block neither panics |
| `RustHeaders.RustSafeIff` | rust/src/headers.rs:180-241 | `get` and `remove` are each safe for every key if and only if the block does not end in an entry whose key is there and whose value is not |
| `RustHeaders.RustCanPanic` | rust/src/headers.rs:180-241 | a five-byte block on which lookup finds nothing and both panic |
| `StreamQueue.Stream.AddMsg` | go/stream.go:69-92 | a closed stream refuses the message; past the check a channel closed meanwhile panics, else the drain loop with its double advance runs, then the message is added |
| `StreamQueue.Stream.Recv` | go/stream.go:111-175 | unless it times out, takes the first message and moves one from the list |
| `StreamQueue.AddKeepsOrderIff` | go/stream.go:69-92 | for distinct messages, adding appends to the queue if and only if the list is empty, the channel is full, or it has room for one and the list holds at least two |
| `StreamQueue.AddPanicsIff` | go/stream.go:73-91 | past its check, adding panics if and only if the channel was closed since, or the list is odd and the channel has room for every other element |
| `StreamQueue.DrainKeepsAll` | go/stream.go:69-92 | even when order is lost no message is lost or duplicated, but for the added one on a panic |
| `StreamQueue.ReceiveStep` | go/stream.go:111-175 | an open stream returns the first message, waits, or times out and takes nothing; moving never blocks |
| `StreamQueue.ReceiveOutcome` | go/stream.go:111-175 | what it returns for any queue, open or closed |
| `StreamQueue.RunIsFifo` | go/stream.go:69-175 | over any run what was received followed by what is queued is what was added; a non-empty list means a full channel; nothing panics |
| `StreamQueue.InterruptedIff` | go/stream.go:69-175 | a `Recv` with an `addMsg` between its two halves returns its message if and only if the list is empty; with one message in the list it panics, with more it blocks holding the lock |
| `StreamQueue.InterruptionReachable` | go/stream.go:69-175 | runs after which each of the two happens, for any capacity |
| `StreamQueue.CloseIsCleanIff` | go/stream.go:166-175 | after closing, all queued messages and then the end are received if and only if nothing had overflowed; else the first `Recv` panics |
| `StreamLane.RunConserves` | go/stream.go:69-175 | over any interleaving of takes, moves, adds and closing that does not panic nothing is lost or duplicated, and each free place beside a non-empty list has a receiver on its way to fill it |
| `StreamLane.MovesCounted` | go/stream.go:128-175 | each message taken is followed by one move |
| `StreamLane.WaitingHoldsLock` | go/stream.go:166-175 | a receiver that waits for room keeps everyone else from the list |
| `StreamLane.RunPanicsIff` | go/stream.go:69-230 | such an interleaving panics if and only if some step of it is made in a state of hazard: adding to a channel closed since the check, or to an odd list beside enough room; moving to a closed channel; closing under a receiver that waits |
| `StreamLane.RunInOrder` | go/stream.go:69-175 | it is one FIFO queue as long as each message is added in an orderly state |
| `StreamLane.QuietIsOrderly` | go/stream.go:69-175 | a state is orderly while no receiver is between its take and its move |
| `StreamLane.ClosedLane` | go/stream.go:111-175 | once the channel is closed what it holds is all that can still be received; nothing panics if the list is empty |
| `StreamLane.ClosedSinceCheckPanics` | go/stream.go:70-91 | a close between the check of `addMsg` and its send panics, whatever is queued |
| `StreamLane.PutInsideReceive` | go/stream.go:69-175 | an `addMsg` inside a `Recv` panics with one message in the list, and with more leaves the receiver waiting with the lock |
| `StreamClose.OneCloserRuns` | go/stream.go:211-230 | at each end, in any run: one closer passes the swap, the channel is closed at most once, and a close frame is written if and only if the winner had `send` and finished |
| `StreamClose.NoEcho` | go/server.go:263-290 | a received close is never answered with one; the two ends exchange at most two close frames |
| `StreamClose.ReaderIsSilent` | go/server.go:287-287 | if the reader's call is the one that runs, its end writes no close frame |
| `StreamClose.ReceiveCalls` | go/server.go:232-249 | the reader calls for a received frame exactly if the stream is in its map |
| `StreamClose.EndsAgree` | go/stream.go:190-230 | when all calls have returned and no close frame is on the way, both ends are closed, with channel closed and map entry gone, or both are open |
| `Types.SizeIsLayout` | compiler/src/main.rs:356-374 | the exact size is the total width of the scalars laid out one by one, and is defined if and only if the type has such a layout with no part past 64 bits |
| `Types.MinFitsIff` | compiler/src/main.rs:356-399 | in a type and all its parts the minimum size is defined and at most every exact size, if and only if each sized null-terminated string has length at least 1 |
| `Types.NoRoomForTerminator` | compiler/src/main.rs:364-385 | such a string of length 0 is exactly 0 bits and at least 8 |
| `Types.MinIsShortest` | compiler/src/main.rs:377-399 | the minimum size is the total width of the shortest layout |
| `TypeSyntax.ParsedShape` | compiler/src/main.rs:402-446 | a parsed tree has lengths only on its outermost bracket and maps only as the outermost type or as map values |
| `TypeSyntax.GrammarIff` | compiler/src/main.rs:402-446 | a text is parsed to a type if and only if the grammar, with its white space and its numerals, says that it denotes it |
| `TypeSyntax.RoundTripIff` | compiler/src/main.rs:402-446 | for every type tree, parsing its canonical text gives it back if and only if it has that shape, 64-bit numbers and valid names |
| `TypeSyntax.Reparses` | compiler/src/main.rs:402-446 | for every accepted text, printing and parsing again gives the same tree |
| `TypeSyntax.PrintInjective` | compiler/src/main.rs:402-446 | accepted trees with the same text are the same |
| `TypeSyntax.BlanksIgnored` | compiler/src/main.rs:422-431 | white space around a key, a value and a length does not change the type |
| `TypeSyntax.OuterBlankRefused` | compiler/src/main.rs:405-446 | white space around a whole type is an error |
| `TypeSyntax.OptionalRefused` | compiler/src/main.rs:437-442 | no text that ends in a question mark is a type |
| `TypeSyntax.NestedLengthRefused` | compiler/src/main.rs:420-426 | a length that is followed by a closing bracket inside the outermost one is refused |
| `TypeSyntax.ParsedSizesFit` | compiler/src/main.rs:356-446 | for every accepted text the minimum size is at most every exact size |
| `StructSyntax.ParseLines` | compiler/src/main.rs:227-289 | the loop over the line iterator yields the specified struct or the error with its line, and leaves the lines after it |
| `StructSyntax.ParsedStructValid` | compiler/src/main.rs:227-289 | a parsed struct has valid names and reachable types |
| `StructSyntax.HeadIff` | compiler/src/main.rs:232-258 | a first line is accepted exactly for the keyword, a valid name and a brace, which may touch the name |
| `StructSyntax.HeadSpacing` | compiler/src/main.rs:232-246 | with any white space between them |
| `StructSyntax.FieldIff` | compiler/src/main.rs:267-286 | a line is a field exactly if it is its name, a colon and a text of its type with a semicolon behind it, with white space around either |
| `StructSyntax.BlankBeforeSemicolon` | compiler/src/main.rs:276-282 | but none before the semicolon |
| `StructSyntax.FirstBadLine` | compiler/src/main.rs:262-288 | the first line that is no field is the error, with its own line; a missing brace is one of the first line |
| `StructSyntax.StructRoundTripIff` | compiler/src/main.rs:227-289 | for every struct, parsing its printed definition gives it back and leaves the lines after it, if and only if its names are valid and its types reachable |
| `FileSyntax.ParseText` | compiler/src/main.rs:73-115 | the loop over the lines yields the structs and functions by name, or the first error with its line |
| `FileSyntax.FuncIff` | compiler/src/main.rs:137-195 | a line is parsed as a function exactly if it is a text of it, streams and white space included |
| `FileSyntax.FileRoundTrip` | compiler/src/main.rs:73-115 | the text of any file of valid structs, functions and other lines is parsed to what they mean |
| `FileSyntax.FirstBadItem` | compiler/src/main.rs:73-115 | the first item that is not valid is the error, with its own kind and line |
| `FileSyntax.JoinedLines` | compiler/src/main.rs:76-80 | a text is read as its lines, trimmed, whether or not it ends in a newline |
| `FileSyntax.CollectIff` | compiler/src/main.rs:96-107 | that is every struct and function under its name, and an error if and only if two structs or two functions share one |
| `FileSyntax.FileAcceptedIff` | compiler/src/main.rs:73-115 | so such a text is accepted if and only if no name comes twice in its kind |
| `Readers.Conn.Read` | proxy/listeners.go:437-461 | fills the buffer from the replayed bytes and then from the connection, with its error, and leaves the rest of the buffer alone |
| `Readers.ReplayCount` | proxy/listeners.go:437-461 | a read gives all that the room, the replayed bytes and the connection below allow together, and fails exactly if it comes to read below and that fails |
| `Readers.ReplayErrorsIff` | proxy/listeners.go:437-461 | over any calls, one reports an error exactly if the connection fails in it and the calls up to it want more than the replayed bytes |
| `Readers.ReplayConserves` | proxy/listeners.go:437-461 | over any reads and any short reads below, output followed by remainder is the replayed bytes followed by the connection's, which is not touched before they are used up |
| `Readers.ReadCloseCounter.Read` | go/req_resp.go:976-985 | reads at most the remaining length, passes the error below on, and reports the end when the length is 0 |
| `Readers.CounterStep` | go/req_resp.go:976-985 | a read gives all that the room, the remaining length and the reader below allow, and reports the end, the error below, or none |
| `Readers.CounterBounds` | go/req_resp.go:976-985 | over any reads, bytes read and remaining length add up to the declared length, and nothing after it is consumed |
| `Mux.CombineMiddleware` | go/mux.go:246-258 | the combined function wraps a handler in all middlewares, the first outermost |
| `Mux.BatchingIrrelevant` | go/mux.go:161-203 | the batches in which middlewares are registered do not matter |
| `Mux.MapMux.GlobalMiddleware` | go/mux.go:161-169 | the stored middleware stands for all registered ones in registration order |
| `Mux.MapMux.Handle` | go/mux.go:127-133 | replaces the handler, and the path's middleware only when some is given |
| `Mux.MapMux.Handler` | go/server.go:430-439 | a request passes the global middlewares, then the mux's, then the path's, then the handler |
| `Mux.MapMux.StreamHandler` | go/server.go:359-369 | the same for the request that opens a stream |

## Left out

- ClientLifecycle.StepKeepsInv: the Julia client is a step system on values, not objects in place; its table of streams and stream messages are not in it, frames are values, and the network may reorder responses, which only adds runs; ids are values, not bytes.
- Wire.RequestRoundTrip: bodies of 2^63 bytes and more, and ids past 64 bits, are not stated; a declared length of 2^63 or more reads as negative and takes no bytes, as in the code.
- Server.LoopDispatches: frames for unknown streams, and messages that their stream does not take, are excluded, because the loop leaves the frame or ends there; `Server.AlignedIff` and `Server.LoopUntilRefused` say so.
- Server.ServerConn.HandleReq: the pooled buffer is taken to be empty, as the code resets it before it is put back.
- Accounting.ResponsesConserved: assumes that writes succeed, that bodies supply their declared length and that headers encode.
- Server.AlignedIff: when `addMsg` panics or never returns is a parameter of the turn here; `StreamLane` says when it does.
- ClientDemux.LoopRoutes: ids are registered when their frames arrive; the Go client writes a request before it registers it, so that is an assumption about timing.
- DemuxTheorems.ReaderPanicsIff: the drain loop of `addMsg` is one step, as are the reader's closing of a stream and its handling of a response; callers may act before, between and after them. Closing the client itself is not among the acts.
- RustHeaders.RustAgreesWithGo: Rust's `parse`, `encodep`, `encode` and the iterator over owned bytes do not do what their names say and are not modelled; Rust's `set_all` is unfinished on raw bytes.
- StreamQueue.RunIsFifo: taking and moving are one step; `StreamQueue.InterruptedIff` shows why, and `StreamLane` takes them apart.
- StreamQueue.Stream.Recv: whether a deadline passes before a message arrives is a parameter.
- StreamClose.EndsAgree: what a close error carries is not modelled; a close frame for a stream that is gone is read and ignored.
- Types.MinFitsIff: the size of a struct is unknown, as in the code; an overflow of `usize` is an outcome of its own.
- FileSyntax.ParseText: the unfinished `reorder_fields`, reading files and printing errors are not modelled; an error is its kind and its line.
- Mux.MapMux.GlobalMiddleware: the `Set...` methods that overwrite a stored middleware are not modelled, nor nil functions in a batch.
- Raw `Headers.Range`, which does not advance past an entry.
- Go's nil and empty maps and slices are not told apart, except where `EncodeP` returns nil.
- Closing the Go or the Rust client with live requests or streams, and their `Send`: they register after writing and take locks they hold.
- The handshake, sockets, deadlines, timers, websockets, HTTP, JSON, admin handlers and the tunnel of the proxy.
- Julia's conversions between bytes and integers.
