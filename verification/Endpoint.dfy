/**
 One end of a qmux connection as a value: channels, and the session that owns them.
 Each function is what one step does; Network.dfy interleaves the steps. A step is one mutex-protected
 section of golang/mux/channel.go or golang/mux/session.go, or several taken together; the README says
 which. The handling of a Close is three steps: the reply (`Handle`), the freeing of the slot and the
 shutting of the channel (`Proceed`); that of an open request is two, the queueing of the channel
 (`HandleOpen`) and its confirmation (`Proceed`). `Open` is two, the allocation (`AddChan`) and the request
 (`OpenRequest`); an iteration of `Write` is two, the reserving of credit (`ReserveChunk`) and the encoding
 of the chunk (`EncodeChunk`); and `Read` is two, the taking of bytes (`TakeBytes`) and the adjustment of the
 window (`AdjustWindow`). Other steps may come in between.
 The classes of Channel.dfy and Session.dfy are proved to compute these functions.
 A channel is named by its index in `Sess.heap`, which stands for the Go pointer: slots of the
 table are reused, heap indices never are.
 */
module Endpoint {
  import opened Wrappers
  import opened Wire
  import Credit
  import Table

  const MIN_PACKET_LENGTH := 9
  const MAX_PACKET_LENGTH := 0x8000_0000
  const CHANNEL_MAX_PACKET: u32 := 0x8000
  const CHANNEL_WINDOW_SIZE: u32 := 0x20_0000

  datatype Direction = Inbound | Outbound

  datatype Error =
    | Transport
    | UnexpectedMessage(kind: byte)
    | InvalidChannel(id: u32)
    | InvalidMessage
    | PayloadTooBig
    | WrongPacketLength
    | WroteTooMuch
    | InvalidWindowUpdate(n: u32)
    | ResponseOnInbound
    | InvalidMaxPacketSize(n: u32)

  datatype Chan = Chan(
    localId: u32,
    remoteId: u32,
    maxIncomingPayload: u32,
    maxRemotePayload: u32,
    direction: Direction,
    msg: seq<Message>,
    msgClosed: bool,
    sentEOF: bool,
    sentClose: bool,
    remoteWin: u32,
    winClosed: bool,
    pending: seq<byte>,
    pendingClosed: bool,
    myWindow: u32)

  function NewChan(id: u32, direction: Direction): Chan {
    Chan(id, 0, 0, 0, direction, [], false, false, false, 0, false, [], false, CHANNEL_WINDOW_SIZE)
  }

  /** The channel `Open` creates. */
  function OutboundChan(id: u32): Chan {
    NewChan(id, Outbound).(maxIncomingPayload := CHANNEL_MAX_PACKET)
  }

  /** The channel `handleOpen` creates for a request. */
  function InboundChan(m: Message, id: u32): Chan
    requires m.Open?
  {
    NewChan(id, Inbound).(
      remoteId := m.senderId,
      maxRemotePayload := m.maxPacketSize,
      remoteWin := m.windowSize,
      maxIncomingPayload := CHANNEL_MAX_PACKET)
  }

  predicate GoodPacketSize(n: u32) {
    MIN_PACKET_LENGTH <= n <= MAX_PACKET_LENGTH
  }

  // ---------------------------------------------------------------- what a user does to a channel

  /** What a call leaves behind: the channel, the messages it sent, the bytes it returned, io.EOF. */
  datatype Effect = Effect(c: Chan, out: seq<Message>, bytes: seq<byte>, eof: bool)

  /** `send`: nothing goes out once a Close has. */
  function Send(c: Chan, m: Message): Effect {
    if c.sentClose then Effect(c, [], [], true)
    else Effect(c.(sentClose := m.Close?), [m], [], false)
  }

  function SendEof(c: Chan): Effect {
    Send(c.(sentEOF := true), Eof(c.remoteId))
  }

  function SendClose(c: Chan): Effect {
    Send(c, Message.Close(c.remoteId))
  }

  /** How much one iteration of `Write` takes from its slice. */
  function Chunk(c: Chan, data: seq<byte>): (n: u32)
    ensures n <= |data|
  {
    Credit.Grant(c.remoteWin, Credit.Min(c.maxRemotePayload, |data|))
  }

  /** The first step of an iteration of `Write` that does not wait: reserve credit for a chunk. */
  function ReserveChunk(c: Chan, data: seq<byte>): Effect {
    Effect(c.(remoteWin := c.remoteWin - Chunk(c, data)), [], [], c.winClosed)
  }

  /** The second step: encode the chunk. */
  function EncodeChunk(c: Chan, chunk: seq<byte>): Effect {
    Effect(c, [Data(c.remoteId, |chunk| % TWO32, chunk)], [], false)
  }

  /** One iteration of `Write` whose steps happen in a row. */
  function WriteIteration(c: Chan, data: seq<byte>): Effect {
    var r := ReserveChunk(c, data);
    if r.eof then r else EncodeChunk(r.c, data[..Chunk(c, data)])
  }

  function AdjustWindow(c: Chan, n: u32): Effect {
    Send(c.(myWindow := (c.myWindow + n) % TWO32), WindowAdjust(c.remoteId, n))
  }

  /** The first step of a `Read` into a slice of the given length: take bytes out of the buffer. With nothing
      to return and no end of file it waits, which leaves the channel as it is. */
  function TakeBytes(c: Chan, len: nat): Effect {
    var n := if len < |c.pending| then len else |c.pending|;
    if n > 0 then Effect(c.(pending := c.pending[n..]), [], c.pending[..n], false)
    else Effect(c, [], [], len > 0 && c.pendingClosed)
  }

  /** A `Read` whose steps happen in a row: what it takes it gives back to the window. */
  function ReadSome(c: Chan, len: nat): Effect {
    var r := TakeBytes(c, len);
    if r.bytes == [] then r
    else
      var e := AdjustWindow(r.c, |r.bytes| % TWO32);
      Effect(e.c, e.out, r.bytes, false)
  }

  // ---------------------------------------------------------------- a transport that fails

  /** How a call ends: without an error, with io.EOF, or with the transport's error. */
  datatype Status = Fine | EndOfFile | Broken

  /** What a transport takes of some messages, when it takes `accepts` more before it fails. */
  function Taken(out: seq<Message>, accepts: nat): seq<Message> {
    if |out| <= accepts then out else out[..accepts]
  }

  function StatusOf(e: Effect, accepts: nat): Status {
    if e.eof then EndOfFile else if |e.out| > accepts then Broken else Fine
  }

  /** The steps of a user. `Write` is the first step of an iteration, `Encode` the second, for the k-th of the
      chunks that are reserved on the channel. `Read` is the first step of a call, `Adjust` the second, for the
      k-th of the pieces that were taken and not given back. */
  datatype UserOp =
    | Write(data: seq<byte>)
    | Encode(k: nat, chunk: seq<byte>)
    | Read(len: nat)
    | Adjust(k: nat, n: nat)
    | CloseWrite
    | Close

  function Apply(c: Chan, op: UserOp): Effect {
    match op
    case Write(data) => ReserveChunk(c, data)
    case Encode(_, chunk) => EncodeChunk(c, chunk)
    case Read(len) => TakeBytes(c, len)
    case Adjust(_, n) => AdjustWindow(c, n % TWO32)
    case CloseWrite => SendEof(c)
    case Close => SendClose(c)
  }

  /** The two steps of an iteration of `Write` in a row. */
  lemma IterationSteps(c: Chan, data: seq<byte>)
    ensures var r := Apply(c, UserOp.Write(data));
            r.eof == c.winClosed
            && WriteIteration(c, data) == if r.eof then r else Apply(r.c, UserOp.Encode(0, data[..Chunk(c, data)]))
  {
  }

  /** The two steps of a `Read` in a row: what it takes it gives back. */
  lemma ReadSteps(c: Chan, len: nat)
    ensures var r := Apply(c, UserOp.Read(len));
            var a := Apply(r.c, UserOp.Adjust(0, |r.bytes|));
            ReadSome(c, len) == if r.bytes == [] then r else a.(bytes := r.bytes, eof := false)
  {
  }

  // ---------------------------------------------------------------- what a message does to a channel

  /** What the first step of a handler leaves behind; `freed` is the slot it takes out of the session's
      table, and `closing` says that the steps that free and shut the channel are still to come. */
  datatype Handled = Handled(c: Chan, out: seq<Message>, freed: Option<u32>, err: Option<Error>, closing: bool)

  /** The unexported `close`. */
  function Shut(c: Chan): Chan {
    c.(pendingClosed := true, msgClosed := true, sentClose := true, winClosed := true)
  }

  function Quiet(c: Chan): Handled {
    Handled(c, [], None, None, false)
  }

  function Fault(c: Chan, e: Error): Handled {
    Handled(c, [], None, Some(e), false)
  }

  function HandleData(c: Chan, m: Message): Handled
    requires m.Data?
  {
    if m.length > c.maxIncomingPayload then Fault(c, PayloadTooBig)
    else if m.length != |m.data| % TWO32 then Fault(c, WrongPacketLength)
    else if c.myWindow < m.length then Fault(c, WroteTooMuch)
    else Quiet(c.(myWindow := c.myWindow - m.length, pending := c.pending + m.data))
  }

  function Handle(c: Chan, m: Message): Handled {
    match m
    case Data(_, _, _) => HandleData(c, m)
    case Close(_) =>
      var e := SendClose(c);
      Handled(e.c, e.out, None, None, true)
    case Eof(_) => Quiet(c.(pendingClosed := true))
    case WindowAdjust(_, n) =>
      (match Credit.Add(c.remoteWin, n)
       case None => Fault(c, InvalidWindowUpdate(n))
       case Some(win) => Quiet(c.(remoteWin := win)))
    case OpenConfirm(_, sender, window, packet) =>
      if c.direction.Inbound? then Fault(c, ResponseOnInbound)
      else if !GoodPacketSize(packet) then Fault(c, InvalidMaxPacketSize(packet))
      else
        var win := match Credit.Add(c.remoteWin, window) case None => c.remoteWin case Some(w) => w;
        Quiet(c.(remoteId := sender, maxRemotePayload := packet, remoteWin := win, msg := c.msg + [m]))
    case OpenFailure(id) =>
      if c.direction.Inbound? then Fault(c, ResponseOnInbound)
      else Handled(c.(msg := c.msg + [m]), [], Some(id), None, false)
    case Open(_, _, _) => Fault(c, InvalidMessage)
  }

  /** A handler whose steps all happen in a row. */
  function HandleWhole(c: Chan, m: Message): Handled {
    var r := Handle(c, m);
    if r.closing then Handled(Shut(r.c), r.out, Some(c.localId), r.err, false) else r
  }

  // ---------------------------------------------------------------- sessions

  /** Where the loop is: between two packets, about to confirm a channel that it has queued, or handling the
      Close of a channel. */
  datatype Loop = Idle | Confirming(u: nat) | Freeing(u: nat) | Shutting(u: nat)

  /** `err` is set when the session's loop has ended. */
  datatype Sess = Sess(table: seq<Option<nat>>, heap: seq<Chan>, err: Option<Error>, loop: Loop)

  datatype Reply = Reply(s: Sess, out: seq<Message>, err: Option<Error>)

  predicate Sound(s: Sess) {
    && (forall i | 0 <= i < |s.table| && s.table[i].Some? :: s.table[i].value < |s.heap|)
    && (!s.loop.Idle? ==> s.loop.u < |s.heap|)
  }

  function NextId(s: Sess): u32 {
    Table.FirstFree(s.table) % TWO32
  }

  /** Allocate a channel: the session's part of `newChannel`. */
  function AddChan(s: Sess, c: Chan): Sess {
    s.(table := Table.Put(s.table, |s.heap|), heap := s.heap + [c])
  }

  /** The request of a channel that `Open` has allocated. */
  function OpenRequest(c: Chan): Message {
    Open(c.localId, c.myWindow, c.maxIncomingPayload)
  }

  /** `Open` up to the point where it waits for the response, its steps in a row. */
  function OpenChannel(s: Sess): Reply {
    var c := OutboundChan(NextId(s));
    Reply(AddChan(s, c), [OpenRequest(c)], None)
  }

  /** Refuse a request, or queue a channel for it. From here on a user may have the channel. */
  function HandleOpen(s: Sess, m: Message): Reply
    requires m.Open?
  {
    if !GoodPacketSize(m.maxPacketSize) then Reply(s, [OpenFailure(m.senderId)], None)
    else Reply(AddChan(s, InboundChan(m, NextId(s))).(loop := Confirming(|s.heap|)), [], None)
  }

  /** The confirmation of a channel. */
  function Confirm(c: Chan): Message {
    OpenConfirm(c.remoteId, c.localId, c.myWindow, c.maxIncomingPayload)
  }

  /** Put back a channel that handled a message. */
  function Settle(s: Sess, u: nat, r: Handled): Sess
    requires u < |s.heap|
  {
    s.(heap := s.heap[u := r.c],
       table := if r.freed.Some? then Table.Remove(s.table, r.freed.value) else s.table,
       loop := if r.closing then Freeing(u) else Idle)
  }

  function OnePacket(s: Sess, m: Message): Reply
    requires Sound(s)
  {
    if m.Open? then HandleOpen(s, m)
    else
      match Table.Get(s.table, m.channelId)
      case None => Reply(s, [], Some(InvalidChannel(m.channelId)))
      case Some(u) =>
        var r := Handle(s.heap[u], m);
        Reply(Settle(s, u, r), r.out, r.err)
  }

  /** The next step of handling an open request or a Close. */
  function Proceed(s: Sess): Reply
    requires Sound(s)
  {
    match s.loop
    case Idle => Reply(s, [], None)
    case Confirming(u) => Reply(s.(loop := Idle), [Confirm(s.heap[u])], None)
    case Freeing(u) =>
      Reply(s.(table := Table.Remove(s.table, s.heap[u].localId), loop := Shutting(u)), [], None)
    case Shutting(u) => Reply(s.(heap := s.heap[u := Shut(s.heap[u])], loop := Idle), [], None)
  }

  /** The end of `loop`: every channel still in the table is closed and the table is dropped. */
  function Teardown(s: Sess, e: Error): Sess {
    var heap := seq(|s.heap|, u requires 0 <= u < |s.heap| =>
      if Some(u) in s.table then Shut(s.heap[u]) else s.heap[u]);
    Sess([], heap, Some(e), Idle)
  }

  /** The first step of one turn of `loop`. */
  function LoopStep(s: Sess, m: Message): Reply
    requires Sound(s)
  {
    var r := OnePacket(s, m);
    match r.err
    case None => r
    case Some(e) => r.(s := Teardown(r.s, e))
  }

  function UserCall(s: Sess, u: nat, op: UserOp): Reply
    requires u < |s.heap|
  {
    var e := Apply(s.heap[u], op);
    Reply(s.(heap := s.heap[u := e.c]), e.out, None)
  }
}
