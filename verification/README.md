# qmux, modelled and verified in Dafny

qmux multiplexes many flow-controlled byte streams over one connection. It is a cut-down version of the SSH
connection protocol: sections 5.1 (opening), 5.2 (data and windows) and 5.3 (closing) of RFC 4254, with integers
laid out as in section 5 of RFC 4251. This project models the Go endpoint pair of `golang/mux`, the wire codecs of
both implementations, the TypeScript reassembly of socket messages into packets, and the TypeScript framing layer
on top of a channel, and proves what they promise over whole runs.

`dafny verify dfyconfig.toml` checks everything.

## How it is put together

* `Wire.dfy` is the format: messages, payload sizes, `Encode`, `Decode`, and the laws that tie them together.
  `GoCodec.dfy` and `TsEncoder.dfy` are the two encoders and the Go decoder as in-place and stream code, proved
  against that format.
* `Credit.dfy` and `Table.dfy` are 32-bit credit arithmetic and the slot table as values; `Window.dfy`, `Buffer.dfy`
  and `ChanList.dfy` are the mutable objects of `golang/mux/util.go`, each proved to compute those values.
* `Endpoint.dfy` has one function for each step of a channel or session. `Channel.dfy` and `Session.dfy` are the
  objects that compute these functions, on a transport that may fail; `Writing.dfy` is a whole call of `Write`.
* `Link.dfy` is one channel pair with the messages in flight between them, and its invariant. `Network.dfy` is two
  sessions joined by two FIFO wires, with any number of channels; it shows that each message reaches the channel it
  was meant for, so the pair of sessions is a bundle of independent links.
* `Runs.dfy` states what holds in every state that clean runs reach, and `Delivery.dfy` exactly which runs are safe.
  `Trace.dfy` adds up what a run has put on the wires, handed over, emitted and returned, and `Promises.dfy` says
  what users and peers can rely on, in these terms alone. `Graceful.dfy` shows how users keep a run safe and lose
  nothing, and `Races.dfy` has five runs in which they do not and a session ends.
* `TsConn.dfy` and `TsDecoder.dfy` are the TypeScript connection and packet reader, `TsChannel.dfy` and
  `TsFrames.dfy` the receiving channel and the length-prefixed frame loop. A coroutine is modelled by the state
  between two of its reads. `Interop.dfy` joins the two halves: what a Go session sends is safe for the TypeScript
  reader.

The contract of an object's method says twice what it does: as the function that the theorems over runs use, and field
by field, with the numbers of the source. So the functions are held to what the source says and not only to the
methods.

A method that waits takes a list `env` of lists: what other goroutines do each time it waits. When the list runs
out, the method is still waiting. Channels carry a history (`Link.Hist`): what has happened to them, and where their
users are between two steps. The functions of `Endpoint.dfy` do not look at it; a second step of a user is for what
its first has left there. `Trace.HistoryIsFaithful` shows that all of it but the peer says what the wires and the
calls of the run say.

## Steps

A turn of a run is one step of one side. What encodes a message, and what changes something that another goroutine can
see, is a step of its own, but for the sections named below. Between two steps of one goroutine the other goroutines of
that side, and the whole other side, may take theirs.

* `Open` (`golang/mux/session.go:112-126`) allocates the channel, then sends the request.
* An iteration of `Write` (`golang/mux/channel.go:84-97`) reserves credit, then encodes the chunk.
* `Read` (`golang/mux/channel.go:107-121`) takes bytes out of the buffer, then gives them back to the window.
* `handleOpen` (`golang/mux/session.go:201-221`) creates the channel and queues it for `Accept`, then encodes the
  confirmation. From the queueing on a user may have the channel.
* The handling of a Close (`golang/mux/channel.go:179-185`) is the reply, the freeing of the slot, and the shutting of
  the channel (`golang/mux/channel.go:152-162`).
* `send` (`golang/mux/channel.go:125-138`) tests `sentClose` and encodes under one lock, so it is one step.

These sections are taken together. What may come between them in the code could as well come before or after, in a
clean run (see below):

* `newChannel` and the filling in of its fields, up to the request or the queueing: nobody else has the channel, and
  no message in flight is for its number.
* `adjustWindow`, the window and the message: only `handleData` looks at the window, and it finds it large enough
  without the addition.
* `CloseWrite`, the flag and the message: only `Write` looks at the flag, as it starts, and could start later.
* `handleData`, the window and the buffer: a reader that comes in between could come before.
* The handling of a confirmation: no user has the channel before `Open` has taken the response, which comes last.
* The shutting (the buffer ends, the responses end, `sentClose` is set, the window closes): `sentClose` is set already,
  so a reader sends nothing and could come before or after, and a writer that reserves could come before.
* The end of the loop, which drops the table and shuts every channel in it: what users still send while it goes on
  could be sent before it.

Three steps put something on the wire without a look at `sentClose`: the encoding of a chunk, the confirmation and the
request. So a chunk may go out behind its channel's Close, and so may the confirmation, when a user closes a channel
that is queued and not confirmed yet. Call a turn stale when it encodes a chunk and its channel's Close is out, or when
it sends that early Close. This happens when a user writes after closing, which `golang/mux/api.go:29-31` rules out
(`Races.WriteAfterClose`), and also when no user does: the Close is then the loop's reply to the peer's
(`Races.WriteAgainstReply`, `Races.ReserveAgainstClose`, `Races.WriteDuringCloseWrite`), or comes too early
(`Races.CloseBeforeConfirmation`). In each of these runs the peer's session ends with an error. A run is clean when no
turn of it is stale while the peer's session runs. `Delivery.SafeIff` shows that the clean runs are exactly the safe
ones, and `Promises.CloseIsLastIff` when nothing follows a Close on the wire. What is said of reachable states is about
clean runs; `Runs.RunOk`, `Trace.HistoryIsFaithful`, `Promises.SilentAfterClose`, `Promises.CloseIsLastIff` and
`Promises.WireIsReadable` are about all.

What users can do about it is in `Graceful.dfy`: they take no step of `Write` after the channel's `CloseWrite` (`Write`
refuses to start then, so no call of it may be running), and call `Close` only after `CloseWrite` and after the peer's
end of file has come. Runs of such users are clean
(`Graceful.PoliteIsClean`), and a Close then loses no byte (`Graceful.NothingLost`). Neither half of the rule can be
dropped: `Races.WriteDuringCloseWrite` and `Races.CloseBeforeConfirmation` break it in one turn each.

## Assumptions

* A session holds fewer than 2^32 - 1 channels at a time.
* A `Read` of the Go transport fills its slice or fails, because `readPacket` ignores the count it returns.
* A user may have an inbound channel from the moment it is queued for `Accept`, and an outbound one once its
  confirmation is handled.
* `Write` looks at `sentEOF` once, before its loop, so an iteration may follow a concurrent `CloseWrite`. The
  theorems allow it; this is why `Runs.GracefulEof` speaks of the bytes sent before the first Eof or Close.
* In TypeScript, the packet reader and the frame loop are the only readers of their connection or channel.

## Where the code and its documentation disagree

* No data is to be sent after a Close. `Write` sends it, and the peer may end its session over it: see above.
* `Write` promises to write all of its slice. `min` truncates the length to 32 bits, so a slice of 2^32 bytes or more
  is never sent to the end: `Writing.WriteEndsIff`.
* A TypeScript read of length 0 means everything buffered. Decoding yields every message however the transport cuts
  the stream exactly when no data message but the last is empty (`TsDecoder.IndependentIff`). Framing yields every
  frame exactly when no frame is empty, or only the last one and the peer sends no Eof (`TsFrames.IndependentIff`).
* The Go encoder appends whatever data a message holds, the TypeScript one sizes its buffer by the length field. They
  agree exactly when the field is true: `TsEncoder.EncodersAgreeIff`.

## Model

| member | source | states |
|---|---|---|
| Promises.RunsArePipes | golang/mux/channel.go:78-121 | Over any clean run, all bytes `Read` has returned on a channel are a prefix of all bytes the calls of `Write` have emitted on its peer; the rest is, in order, in the buffer and in flight. |
| Promises.EofIsComplete | golang/mux/util.go:116-158 | Over any clean run: when `Read` reports io.EOF and the session runs, the peer has put an Eof or Close on the wire, and the calls of `Read` have returned all the data put there before it, and nothing that was not. |
| Promises.ClosesOnce | golang/mux/channel.go:125-162 | Over any clean run a channel puts at most one Close on the wire and is shut at most once, and in a running session it gives up its slot, and is shut, only after a Close of its own is on the wire and one was handed to it. |
| Promises.SilentAfterClose | golang/mux/channel.go:125-138 | In any state: once a channel has sent Close, a turn of its side, replies included, puts something more of it on the wire if and only if it encodes a chunk that was reserved, the confirmation, or the request. |
| Promises.CloseIsLastIff | golang/mux/api.go:29-31 | Over any run: nothing a channel has put on the wire is behind its Close if and only if neither a chunk of it, nor its confirmation, nor its request was encoded after the Close, sent by its user or by the loop in reply, had gone out. |
| Promises.NothingAfterClose | golang/mux/api.go:29-31 | Over any clean run, as long as the peer's session runs, nothing a channel has put on the wire is behind its Close. |
| Promises.WireIsReadable | golang/mux/codec/encoder.go:34-88 | All that a side has put on its wire over any run, encoded and followed by anything, decodes to exactly those messages. |
| Promises.InFlightIsTheEnd | golang/mux/session.go:178-198 | What is in flight is the end of all that was put on the wire. |
| Promises.WritesAreNotEmpty | golang/mux/channel.go:83-97 | Over any clean run with writes shorter than 2^32 bytes no data message on the wire is empty. |
| Delivery.SafeIff | golang/mux/channel.go:78-104 | A run is safe, in that from every moment of it the loops process all that is in flight without an error and on the peer of its sender, if and only if, while the peer's session ran, no chunk was encoded behind its channel's Close and no Close went out before its channel's confirmation; with steps of others between the queueing and the confirming of a channel, between the reserving and the encoding of a chunk, and wherever else the code can be interrupted (see Steps). |
| Delivery.CleanDelivers | golang/mux/session.go:178-198 | In a clean run every message processed is processed without an error, on the channel whose peer sent it. |
| Delivery.StaleBreaks | golang/mux/session.go:187-195 | After a clean run and one stale turn, a chunk behind its Close or a Close before its confirmation, the loops alone come to a message that raises an error or meets a slot that is not the peer's. |
| Graceful.PoliteIsClean | golang/mux/api.go:22-36 | When no step of `Write` follows the channel's `CloseWrite`, and a Close follows it and the peer's end of file, the run is clean, however the steps of all users and both loops interleave and wherever a transport fails. |
| Graceful.PoliteIsSafe | golang/mux/session.go:178-198 | So from every moment of such a run the loops process all that is in flight without an error and on the peer of its sender. |
| Graceful.NothingLost | golang/mux/channel.go:66-121 | In such a run, once a channel has put its Close on the wire, the bytes its calls of `Read` have returned, followed by those still in its buffer, are all the bytes that the calls of `Write` on its peer have ever emitted. |
| Races.WriteAfterClose | golang/mux/channel.go:78-104 | For any data of at least one byte and fewer than 2^32 there is a run in which a user writes after closing and the peer ends its session with an invalid channel. |
| Races.WriteAgainstReply | golang/mux/channel.go:179-185 | For any data of at least one byte and fewer than 2^32 there is a run in which no user writes after closing, only one side closes, an iteration of the other's `Write` comes before the loop has shut the channel, and the session of the side that closed ends with an invalid channel. |
| Races.ReserveAgainstClose | golang/mux/channel.go:84-97 | The same when the iteration has reserved before the peer's Close is handled, and encodes after the channel was shut. |
| Races.WriteDuringCloseWrite | golang/mux/channel.go:78-104 | For any data of at least one byte and fewer than 2^32 there is a run of polite users, but for one chunk that was reserved before its user's `CloseWrite` and is encoded after the peer's Close was answered, and the peer's session ends with an invalid channel. |
| Races.CloseBeforeConfirmation | golang/mux/session.go:213-221 | There is a run of polite users, but for one who closes a queued channel before its confirmation is encoded, in which nobody writes, and the confirmation ends the opener's session with an invalid channel. |
| Races.PoliteCanClose | golang/mux/channel.go:66-75 | Polite users can come to a Close. |
| Trace.HistoryIsFaithful | golang/mux/channel.go:66-162 | After any run, the history and the flags of a channel say what it has put on the wire (bytes, Closes, what precedes the first Eof or Close), what was handed to it, what its calls emitted and returned, how often `close` ran, which chunks were reserved and are not on the wire yet, how much was read and not given back yet, and whether the request has gone out. |
| Runs.PipesAreFifo | golang/mux/channel.go:223-244 | In every reachable state, for each direction of each channel pair, read ++ buffered ++ in flight = written, in order, whatever the other channels do. |
| Runs.PipesStartEmpty | golang/mux/session.go:112-126 | Nothing is sent or read on a channel before its open request has been processed. |
| Runs.RunKeeps | golang/mux/session.go:158-221 | Every clean run of the two sessions, with any interleaving of the steps of users and loops and any transport failure, ends in a state that satisfies the global invariant. |
| Runs.ReachableNext | golang/mux/session.go:158-198 | Any enabled turn that is not stale may follow a clean run, and leads to a state of which all of this holds again. |
| Runs.NeverFail | golang/mux/channel.go:174-244 | After a clean run, accepted channels being used before their confirmation is encoded included, no turn ends in a protocol error (free slot, payload or window exceeded, false length, overflowing update, answer on an inbound channel, bad packet size); only the transport can have ended a session. |
| Runs.ReuseIsSafe | golang/mux/channel.go:179-185 | After a clean run every message in flight that is addressed to slot i was sent by the peer of the channel now in slot i, though slots are freed and reused. |
| Runs.InFlight | golang/mux/session.go:178-198 | A message on a wire is the open request of a channel without a peer, or is addressed to its sender's peer with a true, bounded length. |
| Runs.CreditIsConserved | golang/mux/channel.go:83-101 | Sender credit + chunks reserved + data in flight + adjustments in flight + initial window, in flight or about to be confirmed = receiver window, until the receiver sends Close; never more than it afterwards. |
| Runs.WindowBound | golang/mux/channel.go:140-150 | Receive window + unread bytes + bytes that readers have still to give back = initial window, so the unguarded addition cannot overflow. |
| Runs.NoCreditDeadlock | golang/mux/util.go:202-220 | A sender without credit whose receiver has not closed has a chunk to encode, data or credit in flight or about to be confirmed, or unread bytes, or bytes to give back, at the other side. |
| Runs.GracefulEof | golang/mux/util.go:116-158 | When `Read` reports io.EOF while the session runs, all the peer sent before its first Eof or Close has been read, and nothing it did not send. |
| Runs.CloseHandshake | golang/mux/channel.go:152-162 | At most one Close is sent; the Go channel is closed at most once, and not before the slot is given up; in a running session a slot is given up, and a channel shut, only after Close was both sent and received; nothing is behind a Close on the way to a running session. |
| Runs.OpenHandshake | golang/mux/session.go:201-221 | An unanswered request has still to be sent, or is in flight, or the acceptor is about to confirm it, or its one confirmation is in flight: exactly one of these; until then the opener sends nothing else; none is refused; once answered no other confirmation is in flight and the two ends hold each other's number. |
| Runs.PairingIsInjective | golang/mux/session.go:201-221 | No two channels of a side, live or not, have the same peer, and the relation is symmetric. |
| Runs.RunOk | golang/mux/session.go:158-221 | Any enabled turn may follow any run, clean or not. |
| Runs.MayFollowIff | golang/mux/session.go:158-221 | Which turns may follow a run, clean or not: a running session can open while it has a number to give, and process the next message or fail between two packets; begun handling and opening go on; who holds a channel may close it, end its writing and read at any time, and write when there is credit or the window is closed. |
| Network.TurnKeeps | golang/mux/session.go:158-198 | Any turn of either side that is not stale keeps the invariant over both tables and both wires. |
| Network.Isolation | golang/mux/session.go:187-197 | A turn that touches one link leaves the invariant of all the other links as it was. |
| Network.Routed | golang/mux/session.go:187-197 | The next message on a wire finds, under its number, the peer of the channel that sent it, and is the first of that channel's stream. |
| Network.HandleKeeps | golang/mux/session.go:187-197 | Processing a message that opens nothing, up to the reply to a Close, raises no error and keeps the invariant. |
| Network.AcceptKeeps | golang/mux/session.go:201-213 | Processing an open request up to the queueing of the channel raises no error and joins the new channel to the requesting one. |
| Network.OpenKeeps | golang/mux/session.go:141-154 | The allocation of `Open` adds a channel that has still to send its request, and disturbs no other. |
| Network.RequestKeeps | golang/mux/session.go:116-122 | Sending the request of an allocated channel keeps the invariant: the channel waits, with its request and nothing else in flight. |
| Network.AddChanKeeps | golang/mux/session.go:141-154 | A channel in slot i has local number i after any allocation, and no other channel's entry changes. |
| Network.FailKeeps | golang/mux/session.go:158-175 | The end of a session's loop closes each channel in its table once and keeps the invariant. |
| Network.TurnOk | golang/mux/session.go:158-198 | Any turn, of any users and after any error, leaves both tables and wires in order, so that every next turn is defined. |
| Network.ProceedKeeps | golang/mux/session.go:215-221 | Confirming a queued channel, and freeing and shutting a closed one, with any turns before each, keep the invariant. |
| Link.UserKeeps | golang/mux/channel.go:66-121 | Every enabled step of `Write`, `Read`, `CloseWrite` or `Close` keeps the invariant of a channel pair, but for a chunk behind a Close, or a Close before its confirmation, to a running session, for which `Delivery.SafeIff` shows that it must not. |
| Link.HandleKeeps | golang/mux/channel.go:174-221 | The next message to an end is handled without error, up to the reply to a Close, and keeps the invariant of the pair. |
| Link.DataEnd | golang/mux/channel.go:223-244 | A data message in flight is within the window and the payload limit, so handling it passes all three tests. |
| Link.CreditKeeps | golang/mux/channel.go:191-216 | Credit in flight never overflows the window it is added to. |
| Link.CloseKeeps | golang/mux/channel.go:179-182 | The reply to a Close goes out exactly when no Close had, and keeps the invariant. |
| Link.AcceptKeeps | golang/mux/session.go:208-213 | An opening and the channel `handleOpen` queues for it form a link with nothing in flight and the confirmation to come. |
| Link.ConfirmKeeps | golang/mux/session.go:215-221 | The confirmation, encoded after whatever the user of the queued channel has done in a clean run, keeps the invariant, by which it announces the initial window to an opener that waits for it. |
| Link.FreeKeeps | golang/mux/channel.go:183 | Giving up the slot after the reply keeps the invariant. |
| Link.ShutKeeps | golang/mux/channel.go:152-162 | Shutting a channel without a slot keeps the invariant. |
| Credit.AddExact | golang/mux/util.go:171-188 | The wrap-around test refuses exactly the additions whose true sum exceeds 2^32 - 1, and otherwise the sum is true. |
| Credit.CreditAccounts | golang/mux/util.go:171-220 | For any interleaving of additions, reservations and a close: credit at the start + accepted additions = granted reservations + credit left. |
| Credit.ActIs | golang/mux/util.go:171-220 | An addition is all or nothing, a reservation takes the request or all there is, and a close stays and touches no credit. |
| Credit.AwaitStops | golang/mux/util.go:206-209 | A wait is no longer than it has to be: at each look before its end there was neither credit nor a close, and it goes on only when nothing more happens. |
| Window.Window.constructor | golang/mux/util.go:162-167 | A new window has no credit, is open, and has no waiters. |
| Window.Window.Add | golang/mux/util.go:171-188 | Refuses, and then changes nothing, exactly when the true sum does not fit in 32 bits; else the credit is the true sum; keeps added = granted + win. |
| Window.Window.Close | golang/mux/util.go:192-197 | Closed, with the same credit, waiters and ledger. |
| Window.Window.Reserve | golang/mux/util.go:202-220 | Takes at once when there is credit or a close; else waits, and finds the window that the events meanwhile have made. Then grants no more than the request and the credit, and all of one of them, with io.EOF if closed; the ledger moves by what the others were granted and brought meanwhile and by what this call took. |
| Table.FirstFree | golang/mux/util.go:26-37 | The slot chosen is the least free one, or one past the end. |
| Table.PutExact | golang/mux/util.go:26-37 | An addition fills the least free slot, changes no other, makes no gap, and raises the number in use by one. |
| Table.LengthIsPeak | golang/mux/util.go:26-55 | Over any sequence of additions and removals the table is as long as the peak number of entries in use at once. |
| Table.Lookups | golang/mux/util.go:26-55 | An entry is found under the number its addition returned, nothing under a removed number, and every other number finds what it found before. |
| ChanList.ChanList.Add | golang/mux/util.go:26-37 | Returns the slot it filled, which is the least free one. |
| ChanList.ChanList.GetChan | golang/mux/util.go:40-47 | The entry in the slot of that number, or none beyond the table, as long as the table is smaller than 2^32. |
| ChanList.ChanList.Remove | golang/mux/util.go:49-55 | The slot of that number is empty afterwards, every other as it was, and the length the same. |
| ChanList.ChanList.DropAll | golang/mux/util.go:58-71 | Returns the entries in use in slot order and leaves an empty table. |
| Buffer.Buffer.constructor | golang/mux/util.go:93-101 | A new list is well linked and stands for no bytes. |
| Buffer.Buffer.Write | golang/mux/util.go:105-112 | Appends the bytes to the sequence the list stands for, and keeps it acyclic and ending at the tail. |
| Buffer.Buffer.Eof | golang/mux/util.go:116-121 | Closes and changes no byte. |
| Buffer.Buffer.Fill | golang/mux/util.go:129-146 | The turns that do not wait move exactly the first min(len, available) bytes, stepping over empty elements, and end by a lexicographic measure. |
| Buffer.Buffer.Read | golang/mux/util.go:125-158 | Finds a buffer, the one there is or, when that is empty and open, the first one later on that is not; returns its first min(len, available) bytes and leaves the rest, with io.EOF exactly when it is closed and drained; a read of nothing returns at once. |
| Buffer.AwaitStops | golang/mux/util.go:129-156 | A read waits no longer than it has to: at each look before there was neither data nor an end. |
| Writing.WriteIsExact | golang/mux/channel.go:78-104 | The payloads sent make up the first n bytes in order, each truthfully labelled, within the packet size and not empty; the call returns without error if and only if n = len(data), also when the transport fails on the way. |
| Writing.WriteTakesAll | golang/mux/channel.go:83-97 | Every payload of a call takes all it can: one that is shorter than the packet size and than what is left of the slice (below 2^32) has used up the credit that there was when its turn came. |
| Writing.WriteEnds | golang/mux/channel.go:83-103 | A call ends with io.EOF only on a closed window, and with the transport's error only when the transport takes no more; it changes nothing but the window. |
| Writing.WriteWithinCredit | golang/mux/channel.go:83-101 | A call sends no more than the credit there was and the credit that came while it ran. |
| Writing.HugeWriteNeverEnds | golang/mux/util.go:8-13 | A slice of 2^32 bytes or more is never sent to the end, whatever the peer does. |
| Writing.ShortWriteCanEnd | golang/mux/channel.go:83-101 | For a shorter slice there are credits with which the call ends without error. |
| Writing.WriteEndsIff | golang/mux/util.go:8-13 | A call can return without error if and only if the slice is shorter than 2^32 bytes. |
| Channel.Channel.constructor | golang/mux/session.go:141-152 | A new channel has the initial window, nothing buffered, and nothing sent. |
| Channel.Channel.Send | golang/mux/channel.go:125-138 | io.EOF, and nothing at all, if and only if a Close has gone out; else the message is handed to the transport and a Close is recorded, and the result is nil exactly when the transport takes the message. |
| Channel.Channel.CloseWrite | golang/mux/channel.go:66-70 | Marks the end of writing, even after a Close; io.EOF exactly after a Close, else Eof with the peer's number is sent, and nil reported exactly when the transport takes it. |
| Channel.Channel.Close | golang/mux/channel.go:72-75 | io.EOF exactly when a Close has gone out, else the Close with the peer's number is sent, and nil reported exactly when the transport takes it; either way no more is sent. |
| Channel.Channel.WriteOnce | golang/mux/channel.go:84-97 | One iteration: of the window it finds, takes no more than the credit, the packet size and what is left (below 2^32), and all of one of them; sends exactly that as one data message; on a closed window (io.EOF) or a failed transport the credit is gone and nothing sent. |
| Channel.Channel.Write | golang/mux/channel.go:78-104 | After `CloseWrite` returns 0 and io.EOF and touches nothing. Else sends the first n bytes in order, in truthfully labelled messages for the peer, each taking all it can; returns nil exactly when n = len(data), io.EOF only on a closed window, an error only when the transport takes no more. |
| Channel.Channel.Read | golang/mux/channel.go:107-121 | Returns the front of the buffer it finds, adds as much to the window with 32-bit wrap-around, and tells the peer unless a Close has gone out; end of file only from a drained and closed buffer; the io.EOF of a stopped adjustment is dropped, the transport's error is not. |
| Channel.Channel.AdjustWindow | golang/mux/channel.go:140-150 | Adds to the window with 32-bit wrap-around and sends the adjustment unless a Close has gone out, and reports the transport's error. |
| Channel.Channel.Shut | golang/mux/channel.go:152-162 | Ends the buffer, the responses, the sending and the credit together. |
| Channel.Channel.HandleData | golang/mux/channel.go:223-244 | The three refusals in their order, each leaving the channel as it was; otherwise window down and data buffered at the end. |
| Channel.Channel.HandleClose | golang/mux/channel.go:179-185 | Answers unless a Close has gone out, frees the own slot and no other, and ends buffer, responses, sending and credit, whether or not the transport takes the answer. |
| Channel.Channel.HandleConfirm | golang/mux/channel.go:197-208 | Refuses on an inbound channel, then a packet size outside 9 to 2^31, leaving the channel as it was; else learns number and packet size, adds the credit if the sum fits, and records the response. |
| Channel.Channel.HandleFailure | golang/mux/channel.go:210-216 | Refuses on an inbound channel and changes nothing, else frees the slot the message names and no other, and the response reaches the waiting `Open`. |
| Channel.Channel.HandleAdjust | golang/mux/channel.go:191-195 | Adds the credit exactly when the true sum fits in 32 bits, or reports an invalid update and leaves the credit as it was. |
| Channel.Channel.Handle | golang/mux/channel.go:174-221 | Each message has exactly the effect that the steps of the network model have when they happen in a row: on the channel, on the wire and on the table; an open request is an invalid message and changes nothing. |
| Endpoint.IterationSteps | golang/mux/channel.go:84-97 | An iteration of `Write` is its two steps of the network model in a row: reserve, and, unless the window is closed, encode what was reserved. |
| Endpoint.ReadSteps | golang/mux/channel.go:107-121 | A `Read` is its two steps in a row: take bytes, and give back as many. |
| Session.Session.NewChannel | golang/mux/session.go:141-154 | The channel is in the least free slot of the table, under that number, with a window of 2^21 and nothing else set; no other slot and no other channel has changed. |
| Session.Session.Open | golang/mux/session.go:112-126 | Adds an outbound channel and sends the request with its number, a window of 2^21 and a packet size of 2^15; when the transport fails the channel stays in the table. |
| Session.Session.Queue | golang/mux/session.go:208-213 | The new channel is in the table and in the queue for `Accept`, which holds every inbound channel in the order of their creation, before anything is sent. |
| Session.Session.HandleOpen | golang/mux/session.go:201-221 | Refuses a packet size outside 9 to 2^31 with a failure to the opener's number, no channel and nothing queued; else a channel with the opener's number, packet size and window is added and queued, and then confirmed with both numbers; the transport's error is passed on, and the channel stays queued. |
| Session.Session.OnePacket | golang/mux/session.go:178-198 | Decodes one packet off the stream, or reports the transport's end or the unknown type; then opens, routes by number to the one channel in that slot, which alone changes, or reports an invalid channel and changes nothing. |
| Session.Session.CloseAll | golang/mux/session.go:164-174 | Ends buffer, responses, sending and credit of exactly the channels in the table, empties it, closes the transport, wakes one `Accept` and keeps the error. |
| Session.Session.Loop | golang/mux/session.go:158-175 | On any stream of bytes: processes packets up to the first error and then tears down. |
| Session.LoopEnds | golang/mux/session.go:158-163 | The loop goes on until there is an error: it has processed some messages off the stream, none before the last with an error, and either the last has one or what follows does not decode. |
| Session.LoopDecodes | golang/mux/session.go:158-198 | The loop on the encodings of some messages does what processing these messages one by one does. |
| Wire.GetPut | golang/mux/codec/encoder.go:39-41 | Reading four bytes undoes writing an integer. |
| Wire.PutGet | golang/mux/codec/decoder.go:90-92 | Writing undoes reading, for any four bytes. |
| Wire.BigEndian | golang/mux/codec/encoder.go:39-41 | Four bytes b read as 2^24 b[0] + 2^16 b[1] + 2^8 b[2] + b[3], and are what an integer is written as if and only if that is the integer. |
| Wire.EncodeIsLaidOut | golang/mux/codec/encoder.go:34-88 | Bytes are the encoding of a message if and only if number, offsets, lengths and data are those of the format, byte by byte. |
| Wire.ReadPacket | golang/mux/codec/decoder.go:31-58 | A packet and the rest are the stream, and the packet holds its fixed fields and as much data as its length field says. |
| Wire.DecodeEncode | golang/mux/codec/decoder.go:60-128 | Decoding an encoding, followed by anything, gives the message and leaves what followed. |
| Wire.EncodeDecode | golang/mux/codec/encoder.go:34-88 | Whatever decodes is the encoding of a well-formed message; encoding it gives the same bytes back. |
| Wire.RoundTripIff | golang/mux/codec/encoder.go:66-71 | A message survives encoding and decoding if and only if its length field is true. |
| Wire.DecodeManyEncodeAll | golang/mux/codec/decoder.go:31-128 | Decoding the concatenated encodings of a list, followed by anything, gives the list and leaves the suffix. |
| Wire.PrefixCode | golang/mux/codec/messages.go:15-25 | Of two lists whose encodings start the same stream, one is a prefix of the other. |
| GoCodec.Marshal | golang/mux/codec/encoder.go:34-88 | Byte by byte: the message's number from 100 to 106 first, then each field at its own offset, most significant byte first, in a packet of 5, 9, 13 or 17 bytes, and from offset 9 on the data, whatever the length field says. |
| GoCodec.ReadPacket | golang/mux/codec/decoder.go:31-58 | Takes exactly one packet off the transport, or reports the end of the stream. |
| GoCodec.Decode | golang/mux/codec/decoder.go:19-29 | Takes a packet of that layout, with a true length, off the transport whenever one is in front, and only then; a first byte that is none of the seven numbers is reported as an unknown type, and anything else as the end of the stream. |
| GoCodec.Transmit | golang/mux/codec/encoder.go:19-32 | Decoding, one after the other, what was marshalled gives the same list of messages. |
| TsEncoder.Marshal | javascript/mux/codec/encoder.ts:21-82 | A packet of the same layout, its data padded with zeros to the announced length, or a RangeError exactly when the data is longer than that. |
| TsEncoder.EncodersAgreeIff | javascript/mux/codec/encoder.ts:29-39 | The two encoders agree if and only if the length field is true. |
| TsEncoder.DecodeEncoded | javascript/mux/codec/encoder.ts:21-82 | What this encoder emits is always one whole packet; it decodes to the message with its data padded. |
| TsConn.Connection.Read | javascript/mux/transport/websocket.ts:43-66 | On a closed connection undefined, and nothing changes, with bytes buffered too; else everything for length 0 when there is anything, the exact length when it is there, else a waiter at the end of the line. |
| TsConn.Connection.Receive | javascript/mux/transport/websocket.ts:27-34 | The data goes behind what is buffered, and one waiter is tried, which may go back to the end of the line. |
| TsConn.Connection.Close | javascript/mux/transport/websocket.ts:73-81 | Answers every waiter with undefined, the first time only, and changes nothing else. |
| TsConn.Concat | javascript/mux/util.ts:2-10 | The parts in order, padded to the announced length, or a RangeError when they do not fit. |
| TsDecoder.ChunkIndependence | javascript/mux/codec/decoder.ts:27-55 | However the encodings are cut into socket messages and reads interleaved, decoding never fails and yields a prefix of the list; all of it once every byte has come and the reader waits. |
| TsDecoder.StopReason | javascript/mux/codec/decoder.ts:27-55 | Over every run, on any bytes: what a stopped decoder had received are the packets decoded, what it had read of one more, and its buffer. It has ended cleanly if and only if no packet was begun; the closing inside a packet is an unexpected end; on an open socket it stops only at an unknown type, or at an empty data message with something behind it. |
| TsDecoder.ClosedStops | javascript/mux/transport/websocket.ts:43-49 | Once the socket has closed nothing more is decoded, whatever is still buffered or arrives: the next read stops the decoder. |
| TsDecoder.ReadsRunOut | javascript/mux/codec/decoder.ts:27-55 | A reader left to itself comes to wait or stops. |
| TsDecoder.EmptyDataFails | javascript/mux/transport/websocket.ts:50-55 | An empty data message with anything buffered behind it swallows that and ends in a RangeError. |
| TsDecoder.IndependentIff | javascript/mux/transport/websocket.ts:27-66 | On an open socket, every way of cutting and reading the encodings yields no failure, only a prefix, and at rest all messages, if and only if no data message but the last is empty. |
| TsChannel.Channel.Read | javascript/mux/channel.ts:44-70 | As the connection's read, and a read that drains the buffer after Eof ends the channel. |
| TsChannel.Channel.Receive | javascript/mux/channel.ts:164-184 | Two refusals that change nothing; otherwise window down, data behind what is buffered, first reader tried. |
| TsChannel.WindowIsNeverReplenished | javascript/mux/channel.ts:114-116 | In its whole life a channel accepts no more than its initial window: what it accepts and what is left of it add up. |
| TsFrames.Queue.Push | javascript/rpc/codec.ts:83-89 | A frame goes to the call that has waited longest, or is kept; the order of both is kept. |
| TsFrames.Queue.Decode | javascript/rpc/codec.ts:105-113 | The k-th call has the k-th frame if there is one, and waits otherwise. |
| TsFrames.CallsInOrder | javascript/rpc/codec.ts:64-113 | Over any run the k-th call gets the k-th frame, and frames and calls never both wait. |
| TsFrames.FrameBytes | javascript/rpc/codec.ts:96-103 | A frame is four bytes of length, most significant first, and its bytes. |
| TsFrames.StopsOnlyThen | javascript/rpc/codec.ts:64-82 | Whatever arrives, the loop stops only at its limit or once its channel has ended. |
| TsFrames.LimitHolds | javascript/rpc/codec.ts:66-68 | With a limit the loop never completes more frames than that. |
| TsFrames.FramesInOrder | javascript/rpc/codec.ts:64-113 | Over any chunking and interleaving: the frames completed are the first of those sent, calls get them in order, and with a limit not one byte behind the last frame is taken from the channel. |
| TsFrames.EmptyFrameSwallows | javascript/mux/channel.ts:51-56 | The first empty frame with others buffered behind it is completed as all the bytes that follow it. |
| TsFrames.IndependentIff | javascript/rpc/codec.ts:64-94 | Every way of cutting and reading the encoding of some frames, with the peer's Eof behind it or without, yields only a prefix and at rest all frames, if and only if no frame is empty, or only the last and no Eof can come. |
| TsFrames.IdleMeansDone | javascript/rpc/codec.ts:64-94 | Once every byte has come, and the peer's Eof behind them or not, and the loop is at rest, it has completed every frame, or as many as its limit is. |
| TsFrames.ReadsRunOut | javascript/rpc/codec.ts:64-94 | A loop left to itself comes to rest, and what it has completed stays. |
| TsFrames.EofLosesFrame | javascript/mux/channel.ts:57-64 | An empty last frame is never completed when the Eof has come before its prefix is read: the loop stops with all the others. |
| Interop.GoWireIsChunkSafe | javascript/mux/codec/decoder.ts:27-108 | All that a Go session has put on its wire over any clean run with writes shorter than 2^32 bytes is decoded by the TypeScript reader however it is cut, completely once all has come and the reader rests on an open socket. |

## Left out

- Channel.Channel.HandleClose: as if nothing came between its sections, though the locks are released there;
  `Send`, `Remove` and `Shut` are the sections, and the network model has a turn for each.
- Channel.Channel.Handle: the same for a Close.
- Session.Session.OnePacket: the same for a Close.
- Session.Session.Loop: the same for a Close; nor does it wake those that `Wait` for the error.
- Session.Session: its channels are values named by the order of their creation, not the shared `Channel` objects, so
  that a user and the loop hold the same object is not captured; `Channel.Channel` is the object itself, and both
  compute the same functions.
- Session.Session.Open: stops where `Open` starts to wait for its answer; what the answer can be is
  `Runs.OpenHandshake`.
- Link.UserKeeps: does not cover stale turns while the peer's session runs, after which the invariant does not hold.
- Runs.GracefulEof: bytes that a `Write` still running during `CloseWrite` emits behind the Eof are read too, if they
  arrive in time.
- Runs.NoCreditDeadlock: states that something is under way, not that the scheduler lets it arrive.
- Delivery.SafeIff: for runs in which both sides could number a channel for every request in flight.
- TsChannel.Channel: `close`, `shutdown` and `write` of the TypeScript channel.
- In the network model a transport that fails ends the loop; that it takes no more messages while the loop still reads
  is in `Channel.dfy` and `Session.dfy` only.
- The capacity of the queue for `Accept`, at which `handleOpen` waits, what `Accept` takes out of it, and `Open` on a
  session that has ended.
- The response queue `ch.msg` is kept as the list of responses, without the receiver's side or its capacity.
- TypeScript `Session` and flow control, whose window adjustment is a stub.
- TypeScript `util.queue`, which has the shape of the frame queue proved here.
- Two concurrent `encode` calls of one frame codec, whose prefix and body could interleave.
- The payload codecs (JSON, msgpack) behind the frames, and the Go frame codec.
- Sockets, listeners, contexts, addresses, mutexes, fairness, and the RPC layer above.
