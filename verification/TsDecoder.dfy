/**
 The TypeScript packet decoder on a connection that receives its bytes in arbitrary chunks:
 `readPacket` and `Unmarshal` in javascript/mux/codec/decoder.ts over `Conn`.
 `readPacket` is a coroutine that stops at each read; here it is the state between two reads.
 */
module TsDecoder {
  import opened Wrappers
  import opened Wire
  import TsConn

  // ---------------------------------------------------------------- the coroutine

  /** Why the decoding loop has stopped. */
  datatype Reason = BadPacket(id: byte) | RangeError | UnexpectedEnd | Ended

  /** Between two reads: before a packet, after its type, after its fixed fields, or stopped. */
  datatype Phase = Head | Rest(id: byte) | Body(head: seq<byte>) | Stopped(why: Reason)

  datatype Decoder = Decoder(conn: TsConn.Conn, phase: Phase, out: seq<Message>)

  /** A socket message arrives, the coroutine continues, or the socket closes. */
  datatype Event = Chunk(data: seq<byte>) | Resume | CloseSocket

  const START := Decoder(TsConn.Conn([], [], false), Head, [])

  predicate KnownType(id: byte) {
    OPEN <= id <= CLOSE
  }

  /** The phases the coroutine can reach. */
  predicate PhaseOk(p: Phase) {
    match p
    case Rest(id) => KnownType(id)
    case Body(head) => |head| == 9 && head[0] == DATA
    case _ => true
  }

  function Length(head: seq<byte>): u32
    requires |head| == 9
  {
    GetU32(head[5..9])
  }

  /** The length the coroutine asks its connection for. */
  function Need(p: Phase): nat
    requires PhaseOk(p)
  {
    match p
    case Head => 1
    case Rest(id) => PayloadSize(id)
    case Body(head) => Length(head)
    case Stopped(_) => 0
  }

  /** `Unmarshal` for packets of a known type. */
  function MessageOf(packet: seq<byte>): Message
    requires |packet| >= 1 && KnownType(packet[0]) && |packet| >= 1 + PayloadSize(packet[0])
  {
    Unmarshal(packet).value
  }

  /** The coroutine continues with the bytes it has read. */
  function Feed(d: Decoder, bytes: seq<byte>): Decoder
    requires PhaseOk(d.phase) && |bytes| >= Need(d.phase)
  {
    match d.phase
    case Head =>
      if KnownType(bytes[0]) then d.(phase := Rest(bytes[0])) else d.(phase := Stopped(BadPacket(bytes[0])))
    case Rest(id) =>
      var packet := [id] + bytes;
      if id == DATA && |packet| == 9 then d.(phase := Body(packet))
      else d.(phase := Head, out := d.out + [MessageOf(packet)])
    case Body(head) =>
      (match TsConn.ConcatOf([head, bytes], |head| + Length(head))
       case None => d.(phase := Stopped(RangeError))
       case Some(packet) =>
         assert packet[..9] == head;
         d.(phase := Head, out := d.out + [MessageOf(packet)]))
    case Stopped(_) => d
  }

  /** What an answer of the connection does to the coroutine that waits for it. */
  function Answered(d: Decoder, r: TsConn.Reply): Decoder
    requires PhaseOk(d.phase) && (r.answer.Got? ==> |r.answer.bytes| >= Need(d.phase))
  {
    match r.answer
    case Later => d.(conn := r.c)
    case Undefined => d.(conn := r.c, phase := Stopped(if d.phase.Head? then Ended else UnexpectedEnd))
    case Got(bytes) => Feed(d.(conn := r.c), bytes)
  }

  /** One reader at most waits, for what the coroutine needs. */
  predicate DecoderOk(d: Decoder) {
    && PhaseOk(d.phase)
    && (d.phase.Stopped? || d.conn.waiters == [] || d.conn.waiters == [Need(d.phase)])
  }

  predicate Waiting(d: Decoder) {
    d.conn.waiters != []
  }

  function Step(d: Decoder, e: Event): (r: Decoder)
    requires DecoderOk(d)
    ensures DecoderOk(r)
  {
    if d.phase.Stopped? then d
    else
      match e
      case Chunk(data) =>
        var r := TsConn.OnMessage(d.conn, data);
        Answered(d, r)
      case Resume => if Waiting(d) then d else Answered(d, TsConn.TryRead(d.conn, Need(d.phase)))
      case CloseSocket =>
        var d' := d.(conn := d.conn.(isClosed := true));
        if Waiting(d) then Answered(d', TsConn.Reply(d'.conn, TsConn.Undefined)) else d'
  }

  function Run(d: Decoder, es: seq<Event>): (r: Decoder)
    requires DecoderOk(d)
    ensures DecoderOk(r)
    decreases |es|
  {
    if es == [] then d else Run(Step(d, es[0]), es[1..])
  }

  /** All the bytes the socket delivers. */
  function Received(es: seq<Event>): seq<byte>
    decreases |es|
  {
    if es == [] then [] else (if es[0].Chunk? then es[0].data else []) + Received(es[1..])
  }

  // ---------------------------------------------------------------- what the coroutine has consumed

  /** The bytes of the packet that is being read. */
  function Partial(p: Phase): seq<byte> {
    match p
    case Rest(id) => [id]
    case Body(head) => head
    case _ => []
  }

  predicate Failed(d: Decoder) {
    d.phase.Stopped? && (d.phase.why.RangeError? || d.phase.why.BadPacket?)
  }

  /** Decoded so far, partly read, buffered and yet to come make up the encoding of ms. */
  predicate On(d: Decoder, ms: seq<Message>, ahead: seq<byte>) {
    && DecoderOk(d)
    && AllWellFormed(d.out)
    && !Failed(d)
    && (d.phase.Stopped? ==> d.out <= ms)
    && (!d.phase.Stopped? ==> EncodeAll(d.out) + (Partial(d.phase) + (d.conn.buf + ahead)) == EncodeAll(ms))
    && (!d.phase.Stopped? && Waiting(d) ==> |d.conn.buf| < Need(d.phase))
  }

  /** Only the last message may be data without a payload. */
  predicate NoEmptyDataInside(ms: seq<Message>) {
    forall i | 0 <= i < |ms| - 1 :: ms[i].Data? ==> ms[i].data != []
  }

  lemma EncodesSome(ms: seq<Message>)
    requires ms != []
    ensures EncodeAll(ms) != []
  {
  }

  /** What has been decoded is a prefix of what was encoded, and what is left starts the next message. */
  lemma Follows(out: seq<Message>, x: seq<byte>, ms: seq<Message>)
    requires AllWellFormed(out) && AllWellFormed(ms) && EncodeAll(out) + x == EncodeAll(ms)
    ensures out <= ms && x == EncodeAll(ms[|out|..])
  {
    hide Encode, EncodeAll;
    NothingMore(EncodeAll(ms));
    if |out| <= |ms| {
      PrefixCode(out, ms, x, []);
      NothingMore(EncodeAll(ms[|out|..]));
    } else {
      PrefixCode(ms, out, [], x);
      EncodesSome(out[|ms|..]);
    }
  }

  /** The next message, from the bytes that are left. */
  lemma NextMessage(out: seq<Message>, x: seq<byte>, ms: seq<Message>) returns (m: Message, tail: seq<byte>)
    requires AllWellFormed(out) && AllWellFormed(ms) && EncodeAll(out) + x == EncodeAll(ms) && x != []
    ensures |out| < |ms| && m == ms[|out|] && out <= ms
    ensures x == Encode(m) + tail && tail == EncodeAll(ms[|out| + 1..])
    ensures EncodeAll(out + [m]) + tail == EncodeAll(ms)
  {
    Follows(out, x, ms);
    var rest := ms[|out|..];
    assert EncodeAll(rest) != [] ==> rest != [];
    m := rest[0];
    assert rest[1..] == ms[|out| + 1..];
    tail := EncodeAll(rest[1..]);
    EncodeAllLast(out, m);
    Regroup(EncodeAll(out), Encode(m), tail);
  }

  // ---------------------------------------------------------------- a read keeps the decoder on its way

  /** The decoder tries the read it needs, on a connection where nobody waits. */
  function Attempt(d: Decoder): Decoder
    requires PhaseOk(d.phase)
  {
    Answered(d, TsConn.TryRead(d.conn, Need(d.phase)))
  }

  /** A decoder with nobody waiting, on its way through the encoding of ms. */
  predicate Ready(d: Decoder, ms: seq<Message>, ahead: seq<byte>) {
    On(d, ms, ahead) && !d.phase.Stopped? && !Waiting(d) && !d.conn.isClosed
  }

  lemma AttemptWaits(d: Decoder, ms: seq<Message>, ahead: seq<byte>)
    requires Ready(d, ms, ahead) && |d.conn.buf| < Need(d.phase)
    ensures On(Attempt(d), ms, ahead) && Waiting(Attempt(d))
  {
  }

  lemma HeadBytes(m: Message, tail: seq<byte>, buf: seq<byte>, ahead: seq<byte>)
    requires buf + ahead == Encode(m) + tail && |buf| >= 1
    ensures buf[0] == TypeOf(m) && KnownType(buf[0])
    ensures [buf[0]] + (buf[1..] + ahead) == buf + ahead
  {
    hide Encode;
    EncodeFields(m, tail);
    assert (buf + ahead)[0] == buf[0];
  }

  lemma AttemptHead(d: Decoder, ms: seq<Message>, ahead: seq<byte>)
    requires Ready(d, ms, ahead) && AllWellFormed(ms) && d.phase.Head? && |d.conn.buf| >= 1
    ensures On(Attempt(d), ms, ahead)
  {
    var x := d.conn.buf + ahead;
    assert [] + x == x;
    var m, tail := NextMessage(d.out, x, ms);
    HeadBytes(m, tail, d.conn.buf, ahead);
  }

  /** The fixed part of the next message, when it is buffered, is the packet without its payload. */
  lemma RestBytes(m: Message, tail: seq<byte>, id: byte, buf: seq<byte>, ahead: seq<byte>)
    requires [id] + (buf + ahead) == Encode(m) + tail && |buf| >= PayloadSize(id)
    ensures var k := PayloadSize(id);
            && id == TypeOf(m) && buf[..k] == Fields(m)
            && buf[k..] + ahead == Payload(m) + tail
  {
    hide Encode, Fields, Payload;
    EncodeFields(m, tail);
    var k := PayloadSize(id);
    Cut(id, buf[..k], buf[k..] + ahead);
    assert buf + ahead == buf[..k] + (buf[k..] + ahead);
    Regroup([id], buf[..k], buf[k..] + ahead);
  }

  lemma PlainMessage(m: Message)
    requires !m.Data?
    ensures Unmarshal([TypeOf(m)] + Fields(m)) == Ok(m) && Encode(m) == [TypeOf(m)] + Fields(m)
  {
    var p := [TypeOf(m)] + Fields(m);
    assert p[1..] == Fields(m);
    FieldsAt(m, p);
  }

  lemma FeedRest(d: Decoder, m: Message)
    requires d.phase == Rest(TypeOf(m)) && !d.conn.isClosed
    requires |d.conn.buf| >= |Fields(m)| && d.conn.buf[..|Fields(m)|] == Fields(m)
    ensures Attempt(d) == Decoder(d.conn.(buf := d.conn.buf[|Fields(m)|..]),
                                  if m.Data? then Body([DATA] + Fields(m)) else Head,
                                  if m.Data? then d.out else d.out + [m])
  {
    var r := TsConn.TryRead(d.conn, |Fields(m)|);
    assert r == TsConn.Reply(d.conn.(buf := d.conn.buf[|Fields(m)|..]), TsConn.Got(Fields(m)));
    if !m.Data? {
      PlainMessage(m);
    }
  }

  lemma AttemptRest(d: Decoder, ms: seq<Message>, ahead: seq<byte>)
    requires Ready(d, ms, ahead) && AllWellFormed(ms) && d.phase.Rest? && |d.conn.buf| >= Need(d.phase)
    ensures On(Attempt(d), ms, ahead)
  {
    hide Fields, Attempt, Unmarshal;
    var id, buf, k := d.phase.id, d.conn.buf, Need(d.phase);
    var m, tail := NextMessage(d.out, [id] + (buf + ahead), ms);
    RestBytes(m, tail, id, buf, ahead);
    FeedRest(d, m);
    assert m.Data? ==> |[DATA] + Fields(m)| == 9;
    Regroup([id] + Fields(m), Payload(m), tail);
    assert [] + (buf[k..] + ahead) == Payload(m) + tail && [] + tail == tail;
  }

  /** The payload of the next message, when it is buffered. */
  lemma BodyBytes(m: Message, tail: seq<byte>, head: seq<byte>, buf: seq<byte>, ahead: seq<byte>)
    requires |head| == 9 && head[0] == DATA && WellFormed(m)
    requires head + (buf + ahead) == Encode(m) + tail
    ensures m.Data? && head == [DATA] + Fields(m) && Length(head) == |m.data|
    ensures buf + ahead == m.data + tail
    ensures |buf| >= |m.data| ==> buf[..|m.data|] == m.data && buf[|m.data|..] + ahead == tail
  {
    var x := head + (buf + ahead);
    EncodeFields(m, tail);
    assert x[0] == head[0];
    assert x[1..9] == head[1..] == Fields(m);
    assert x[9..] == buf + ahead;
    SliceOfSlice(head, 1, 9, 4, 8);
    GetPut(m.length);
    if |buf| >= |m.data| {
      assert (buf + ahead)[..|m.data|] == buf[..|m.data|];
      assert (buf + ahead)[|m.data|..] == buf[|m.data|..] + ahead;
    }
  }

  lemma WholeMessage(m: Message)
    requires m.Data? && WellFormed(m)
    ensures TsConn.ConcatOf([[DATA] + Fields(m), m.data], 9 + |m.data|) == Some(Encode(m))
    ensures Unmarshal(Encode(m)) == Ok(m)
  {
    TsConn.JoinedTwo([DATA] + Fields(m), m.data);
    assert Encode(m) + seq(0, _ => 0) == Encode(m);
    EncodeFields(m, []);
    assert Encode(m) + [] == Encode(m);
    FieldsAt(m, Encode(m));
  }

  /** A read of length 0 takes everything buffered, so there must be nothing. */
  lemma AttemptBody(d: Decoder, ms: seq<Message>, ahead: seq<byte>)
    requires Ready(d, ms, ahead) && AllWellFormed(ms) && NoEmptyDataInside(ms)
    requires d.phase.Body? && |d.conn.buf| >= Need(d.phase)
    ensures On(Attempt(d), ms, ahead)
  {
    hide Encode, Fields, Attempt;
    var head, buf := d.phase.head, d.conn.buf;
    var m, tail := NextMessage(d.out, head + (buf + ahead), ms);
    assert m in ms;
    BodyBytes(m, tail, head, buf, ahead);
    if m.data == [] {
      assert |d.out| == |ms| - 1;
      assert tail == [] && buf == [] && ahead == [];
    }
    FeedBody(d, m);
    assert [] + (buf[|m.data|..] + ahead) == tail;
  }

  lemma FeedBody(d: Decoder, m: Message)
    requires m.Data? && WellFormed(m) && d.phase == Body([DATA] + Fields(m)) && !d.conn.isClosed
    requires |[DATA] + Fields(m)| == 9 && Length([DATA] + Fields(m)) == |m.data|
    requires |d.conn.buf| >= |m.data| && d.conn.buf[..|m.data|] == m.data
    requires m.data == [] ==> d.conn.buf == []
    ensures Attempt(d) == Decoder(d.conn.(buf := d.conn.buf[|m.data|..]), Head, d.out + [m])
  {
    var r := TsConn.TryRead(d.conn, |m.data|);
    assert r == TsConn.Reply(d.conn.(buf := d.conn.buf[|m.data|..]), TsConn.Got(m.data));
    WholeMessage(m);
  }

  lemma AttemptKeeps(d: Decoder, ms: seq<Message>, ahead: seq<byte>)
    requires Ready(d, ms, ahead) && AllWellFormed(ms) && NoEmptyDataInside(ms)
    ensures On(Attempt(d), ms, ahead)
  {
    if |d.conn.buf| < Need(d.phase) {
      AttemptWaits(d, ms, ahead);
    } else {
      match d.phase
      case Head => AttemptHead(d, ms, ahead);
      case Rest(_) => AttemptRest(d, ms, ahead);
      case Body(_) => AttemptBody(d, ms, ahead);
    }
  }

  // ---------------------------------------------------------------- chunk independence

  lemma OnPrefix(d: Decoder, ms: seq<Message>, ahead: seq<byte>)
    requires AllWellFormed(ms) && On(d, ms, ahead)
    ensures d.out <= ms
  {
    if !d.phase.Stopped? {
      Follows(d.out, Partial(d.phase) + (d.conn.buf + ahead), ms);
    }
  }

  lemma ChunkKeeps(d: Decoder, data: seq<byte>, ms: seq<Message>, ahead: seq<byte>)
    requires AllWellFormed(ms) && NoEmptyDataInside(ms) && !d.phase.Stopped?
    requires On(d, ms, data + ahead)
    ensures On(Step(d, Chunk(data)), ms, ahead)
  {
    OnPrefix(d, ms, data + ahead);
    assert (d.conn.buf + data) + ahead == d.conn.buf + (data + ahead);
    var d' := d.(conn := d.conn.(buf := d.conn.buf + data, waiters := []));
    if Waiting(d) && !d.conn.isClosed {
      AttemptKeeps(d', ms, ahead);
      assert Step(d, Chunk(data)) == Attempt(d');
    }
  }

  lemma ResumeKeeps(d: Decoder, ms: seq<Message>, ahead: seq<byte>)
    requires AllWellFormed(ms) && NoEmptyDataInside(ms) && !d.phase.Stopped?
    requires On(d, ms, ahead)
    ensures On(Step(d, Resume), ms, ahead)
  {
    OnPrefix(d, ms, ahead);
    if !Waiting(d) && !d.conn.isClosed {
      AttemptKeeps(d, ms, ahead);
    }
  }

  function Delivers(e: Event): seq<byte> {
    if e.Chunk? then e.data else []
  }

  lemma StepKeeps(d: Decoder, e: Event, ms: seq<Message>, ahead: seq<byte>)
    requires AllWellFormed(ms) && NoEmptyDataInside(ms)
    requires On(d, ms, Delivers(e) + ahead)
    ensures On(Step(d, e), ms, ahead)
  {
    assert [] + ahead == ahead;
    if !d.phase.Stopped? {
      match e
      case Chunk(data) => ChunkKeeps(d, data, ms, ahead);
      case Resume => ResumeKeeps(d, ms, ahead);
      case CloseSocket => OnPrefix(d, ms, ahead);
    }
  }

  lemma {:induction false} RunKeeps(d: Decoder, es: seq<Event>, ms: seq<Message>, ahead: seq<byte>)
    requires AllWellFormed(ms) && NoEmptyDataInside(ms)
    requires On(d, ms, Received(es) + ahead)
    ensures On(Run(d, es), ms, ahead)
    decreases |es|
  {
    if es == [] {
      assert [] + ahead == ahead;
    } else {
      Regroup(Delivers(es[0]), Received(es[1..]), ahead);
      StepKeeps(d, es[0], ms, Received(es[1..]) + ahead);
      RunKeeps(Step(d, es[0]), es[1..], ms, ahead);
    }
  }

  /** A decoder that waits although every byte has arrived has decoded every message. */
  lemma WaitingMeansDone(d: Decoder, ms: seq<Message>)
    requires AllWellFormed(ms) && On(d, ms, []) && !d.phase.Stopped? && Waiting(d)
    ensures d.out == ms && d.conn.buf == [] && d.phase == Head
  {
    var buf := d.conn.buf;
    var x := Partial(d.phase) + (buf + []);
    assert buf + [] == buf;
    if x != [] {
      var m, tail := NextMessage(d.out, x, ms);
      EncodeFields(m, tail);
      assert m in ms;
      if d.phase.Body? { BodyBytes(m, tail, d.phase.head, buf, []); }
      assert false;
    } else {
      Follows(d.out, x, ms);
      if d.out != ms { assert false; }
    }
  }

  /**
   Chunk independence: however the encodings of ms are cut into socket messages, and however the reads
   are interleaved with them, the decoder never fails and what it has decoded is a prefix of ms. Once
   all the bytes have arrived and it waits for more, it has decoded exactly ms.
   */
  lemma ChunkIndependence(es: seq<Event>, ms: seq<Message>, later: seq<byte>)
    requires AllWellFormed(ms) && NoEmptyDataInside(ms)
    requires Received(es) + later == EncodeAll(ms)
    ensures var d := Run(START, es);
            && !Failed(d) && d.out <= ms
            && (later == [] && !d.phase.Stopped? && Waiting(d) ==> d.out == ms && d.conn.buf == [])
  {
    assert [] + (Received(es) + later) == Received(es) + later;
    assert [] + EncodeAll(ms) == EncodeAll(ms);
    RunKeeps(START, es, ms, later);
    var d := Run(START, es);
    OnPrefix(d, ms, later);
    if later == [] && !d.phase.Stopped? && Waiting(d) {
      WaitingMeansDone(d, ms);
    }
  }

  // ---------------------------------------------------------------- why the decoder stops

  /** A decoder on any bytes: what it has decoded, the packet it has begun and what is buffered are what it
      has received. */
  predicate Told(d: Decoder, got: seq<byte>) {
    && DecoderOk(d) && !d.phase.Stopped? && AllWellFormed(d.out)
    && got == EncodeAll(d.out) + (Partial(d.phase) + d.conn.buf)
    && (Waiting(d) ==> !d.conn.isClosed && |d.conn.buf| < Need(d.phase))
  }

  /** It has stopped for the right reason, with `begun` of the packet that it was at. */
  predicate Tells(d: Decoder, got: seq<byte>, begun: seq<byte>) {
    && d.phase.Stopped? && AllWellFormed(d.out)
    && got == EncodeAll(d.out) + (begun + d.conn.buf)
    && match d.phase.why
       case Ended => d.conn.isClosed && begun == []
       case UnexpectedEnd =>
         && d.conn.isClosed
         && ((|begun| == 1 && 100 <= begun[0] <= 106) || (|begun| == 9 && begun[0] == 104))
       case BadPacket(id) => !d.conn.isClosed && begun == [id] && !(100 <= id <= 106)
       case RangeError =>
         !d.conn.isClosed && |begun| > 9 && begun[0] == 104 && At(begun, 5, 0) && d.conn.buf == []
  }

  /** A packet with nothing behind it, and the message it stands for. */
  lemma PacketIs(packet: seq<byte>)
    requires |packet| >= 1 && KnownType(packet[0]) && |packet| >= 1 + PayloadSize(packet[0])
    requires |packet| == 1 + PayloadSize(packet[0]) + if packet[0] == DATA then GetU32(packet[5..9]) else 0
    ensures WellFormed(MessageOf(packet)) && Encode(MessageOf(packet)) == packet
  {
    hide GetU32, PutU32, Fields;
    UnmarshalFields(packet);
    assert packet == [packet[0]] + packet[1..1 + PayloadSize(packet[0])] + packet[1 + PayloadSize(packet[0])..];
  }

  /** One more message decoded. */
  lemma DecodedMore(out: seq<Message>, m: Message, packet: seq<byte>, buf: seq<byte>)
    requires AllWellFormed(out) && WellFormed(m) && Encode(m) == packet
    ensures AllWellFormed(out + [m])
    ensures EncodeAll(out + [m]) + buf == EncodeAll(out) + (packet + buf)
  {
    EncodeAllLast(out, m);
    Regroup(EncodeAll(out), packet, buf);
  }

  lemma TellsHead(d: Decoder, got: seq<byte>) returns (begun: seq<byte>)
    requires Told(d, got) && !Waiting(d) && d.phase.Head? && d.conn.buf != [] && !d.conn.isClosed
    ensures Told(Attempt(d), got) || Tells(Attempt(d), got, begun)
  {
    var buf := d.conn.buf;
    begun := [buf[0]];
    assert buf == [buf[0]] + buf[1..] && [] + buf == buf;
  }

  lemma TellsRest(d: Decoder, got: seq<byte>)
    requires Told(d, got) && !Waiting(d) && d.phase.Rest? && |d.conn.buf| >= Need(d.phase) && !d.conn.isClosed
    ensures Told(Attempt(d), got)
  {
    hide Encode, Unmarshal;
    var id, buf, k := d.phase.id, d.conn.buf, Need(d.phase);
    var packet := [id] + buf[..k];
    assert [id] + buf == packet + buf[k..];
    assert TsConn.TryRead(d.conn, k) == TsConn.Reply(d.conn.(buf := buf[k..]), TsConn.Got(buf[..k]));
    if id != DATA {
      PacketIs(packet);
      DecodedMore(d.out, MessageOf(packet), packet, buf[k..]);
      NothingMore(buf[k..]);
    }
  }

  lemma Front(a: seq<byte>, b: seq<byte>, i: nat, j: nat)
    requires i <= j <= |a|
    ensures (a + b)[i..j] == a[i..j]
  {
    assert (a + b)[..|a|] == a;
    SliceOfSlice(a + b, 0, |a|, i, j);
  }

  lemma TellsSwallow(d: Decoder, got: seq<byte>) returns (begun: seq<byte>)
    requires Told(d, got) && !Waiting(d) && d.phase.Body? && Need(d.phase) == 0 && d.conn.buf != [] && !d.conn.isClosed
    ensures Tells(Attempt(d), got, begun)
  {
    var head, buf := d.phase.head, d.conn.buf;
    begun := head + buf;
    TsConn.JoinedTwo(head, buf);
    Front(head, buf, 5, 9);
    BigEndian(begun, 5, 0);
    PutGet(head[5..9]);
    NothingMore(begun);
  }

  lemma Exactly(head: seq<byte>, data: seq<byte>)
    ensures TsConn.ConcatOf([head, data], |head| + |data|) == Some(head + data)
  {
    TsConn.JoinedTwo(head, data);
    NothingMore(head + data);
    assert seq(0, _ => 0) == [];
  }

  lemma TellsBody(d: Decoder, got: seq<byte>)
    requires Told(d, got) && !Waiting(d) && d.phase.Body? && |d.conn.buf| >= Need(d.phase) && !d.conn.isClosed
    requires Need(d.phase) == 0 ==> d.conn.buf == []
    ensures Told(Attempt(d), got)
  {
    hide Encode, Unmarshal, TsConn.ConcatOf, GetU32;
    var head, buf, k := d.phase.head, d.conn.buf, Need(d.phase);
    var packet := head + buf[..k];
    assert head + buf == packet + buf[k..] && packet[..9] == head;
    Front(head, buf[..k], 5, 9);
    Exactly(head, buf[..k]);
    assert TsConn.TryRead(d.conn, k) == TsConn.Reply(d.conn.(buf := buf[k..]), TsConn.Got(buf[..k]));
    PacketIs(packet);
    DecodedMore(d.out, MessageOf(packet), packet, buf[k..]);
    NothingMore(buf[k..]);
  }

  /** A read, on an open connection or a closed one, where nobody waits. */
  lemma AttemptTells(d: Decoder, got: seq<byte>) returns (begun: seq<byte>)
    requires Told(d, got) && !Waiting(d)
    ensures Told(Attempt(d), got) || Tells(Attempt(d), got, begun)
  {
    begun := Partial(d.phase);
    if !d.conn.isClosed && |d.conn.buf| >= Need(d.phase) {
      match d.phase
      case Head => begun := TellsHead(d, got);
      case Rest(_) => TellsRest(d, got);
      case Body(_) =>
        if Need(d.phase) == 0 && d.conn.buf != [] { begun := TellsSwallow(d, got); } else { TellsBody(d, got); }
    }
  }

  lemma StepTells(d: Decoder, e: Event, got: seq<byte>) returns (begun: seq<byte>)
    requires Told(d, got)
    ensures Told(Step(d, e), got + Delivers(e)) || Tells(Step(d, e), got + Delivers(e), begun)
  {
    begun := Partial(d.phase);
    NothingMore(got);
    match e
    case Chunk(data) =>
      var d' := d.(conn := d.conn.(buf := d.conn.buf + data, waiters := []));
      Regroup(Partial(d.phase), d.conn.buf, data);
      Regroup(EncodeAll(d.out), Partial(d.phase) + d.conn.buf, data);
      if Waiting(d) {
        begun := AttemptTells(d', got + data);
        assert Step(d, e) == Attempt(d');
      }
    case Resume => if !Waiting(d) { begun := AttemptTells(d, got); }
    case CloseSocket =>
  }

  lemma {:induction false} RunTells(d: Decoder, es: seq<Event>, got: seq<byte>) returns (k: nat, begun: seq<byte>)
    requires Told(d, got) && Run(d, es).phase.Stopped?
    ensures 0 < k <= |es| && Run(d, es[..k]) == Run(d, es) && !Run(d, es[..k - 1]).phase.Stopped?
    ensures Tells(Run(d, es), got + Received(es[..k]), begun)
    decreases |es|
  {
    var d' := Step(d, es[0]);
    begun := StepTells(d, es[0], got);
    hide Step, Told, Tells;
    if d'.phase.Stopped? {
      k := 1;
      StaysStopped(d', es[1..]);
      assert es[..1] == [es[0]] && es[..1][1..] == [];
      assert Received(es[..1]) == Delivers(es[0]) + [];
      NothingMore(Delivers(es[0]));
    } else {
      k, begun := RunTells(d', es[1..], got + Delivers(es[0]));
      k := k + 1;
      assert es[..k][1..] == es[1..][..k - 1] && es[..k - 1] == [es[0]] + es[1..][..k - 2];
      Regroup(got, Delivers(es[0]), Received(es[1..][..k - 1]));
    }
  }

  lemma {:induction false} StaysStopped(d: Decoder, es: seq<Event>)
    requires DecoderOk(d) && d.phase.Stopped?
    ensures Run(d, es) == d
    decreases |es|
  {
    if es != [] { StaysStopped(d, es[1..]); }
  }

  /**
   Why a decoder stops, over every run and on any bytes. The k-th event stops it. What it had received by then
   are the packets decoded, what had been read of one more, and what was left in the buffer. The closing of
   the socket is the end of the stream if no packet had been begun, and an unexpected end otherwise, with the
   type of a packet read, or the fixed part of a data message. On an open socket it stops at a type that there
   is not, or at a data message without data that swallows what is behind it.
   */
  lemma StopReason(es: seq<Event>) returns (k: nat, begun: seq<byte>)
    requires Run(START, es).phase.Stopped?
    ensures 0 < k <= |es| && Run(START, es[..k]) == Run(START, es) && !Run(START, es[..k - 1]).phase.Stopped?
    ensures var d := Run(START, es);
            && Received(es[..k]) == EncodeAll(d.out) + (begun + d.conn.buf)
            && (d.phase.why == Ended <==> Received(es[..k]) == EncodeAll(d.out) + d.conn.buf)
            && (d.phase.why == UnexpectedEnd <==> d.conn.isClosed && begun != [])
            && (d.conn.isClosed <==> d.phase.why == Ended || d.phase.why == UnexpectedEnd)
            && match d.phase.why
               case Ended => begun == []
               case UnexpectedEnd =>
                 (|begun| == 1 && 100 <= begun[0] <= 106) || (|begun| == 9 && begun[0] == 104)
               case BadPacket(id) => begun == [id] && !(100 <= id <= 106)
               case RangeError => |begun| > 9 && begun[0] == 104 && At(begun, 5, 0) && d.conn.buf == []
  {
    assert EncodeAll([]) + ([] + []) == [] && forall x: seq<byte> :: [] + x == x;
    k, begun := RunTells(START, es, []);
    NothingMore(Received(es[..k]));
    var d := Run(START, es);
    NothingMore(d.conn.buf);
    if begun != [] {
      assert |EncodeAll(d.out) + (begun + d.conn.buf)| > |EncodeAll(d.out) + d.conn.buf|;
    }
  }

  /** Once the socket has closed, nothing more is decoded, whatever is buffered or still arrives: the next read
      stops the decoder. */
  lemma {:induction false} ClosedStops(d: Decoder, es: seq<Event>)
    requires DecoderOk(d) && d.conn.isClosed && (Waiting(d) ==> d.phase.Stopped?)
    ensures Run(d, es).out == d.out && (Resume in es ==> Run(d, es).phase.Stopped?)
    decreases |es|
  {
    if es != [] {
      if Step(d, es[0]).phase.Stopped? { StaysStopped(Step(d, es[0]), es[1..]); }
      ClosedStops(Step(d, es[0]), es[1..]);
    }
  }

  // ---------------------------------------------------------------- reads run out

  function Rank(p: Phase): nat {
    if p.Body? then 1 else 0
  }

  predicate Idle(d: Decoder) {
    d.phase.Stopped? || Waiting(d)
  }

  predicate ResumesOnly(es: seq<Event>) {
    forall e | e in es :: e == Resume
  }

  lemma {:induction false} ResumesBring(es: seq<Event>)
    requires ResumesOnly(es)
    ensures Received(es) == []
    decreases |es|
  {
    if es != [] {
      assert es[0] in es && forall e | e in es[1..] :: e in es;
      ResumesBring(es[1..]);
    }
  }

  /** A decoder that is left to itself comes to wait, or stops: each read that is answered takes bytes
      from the buffer or ends a packet. */
  lemma {:induction false} ReadsRunOut(d: Decoder) returns (es: seq<Event>)
    requires DecoderOk(d)
    ensures ResumesOnly(es) && Idle(Run(d, es))
    decreases |d.conn.buf|, Rank(d.phase)
  {
    if Idle(d) {
      es := [];
    } else {
      var d' := Step(d, Resume);
      if Idle(d') {
        es := [Resume];
        assert Run(d, es) == Run(d', []);
      } else {
        var rest := ReadsRunOut(d');
        es := [Resume] + rest;
      }
    }
  }

  // ---------------------------------------------------------------- empty payloads

  /** Three continuations read one message whose payload is not empty, or two one without payload. */
  lemma ReadOne(d: Decoder, m: Message, tail: seq<byte>) returns (es: seq<Event>)
    requires WellFormed(m) && DecoderOk(d) && d.phase == Head
    requires d.conn == TsConn.Conn(Encode(m) + tail, [], false)
    requires m.Data? && m.data == [] ==> tail == []
    ensures ResumesOnly(es) && Run(d, es) == Decoder(TsConn.Conn(tail, [], false), Head, d.out + [m])
  {
    var d1, d2 := Opened(d, m, tail);
    es := [Resume, Resume];
    if m.Data? {
      FeedBody(d2, m);
      es := [Resume, Resume, Resume];
      assert Run(d, es) == Run(d1, es[1..]) == Run(d2, es[2..]);
    } else {
      assert Run(d, es) == Run(d1, es[1..]) == Run(d2, []);
    }
  }

  /** The first two continuations read the fixed part. */
  lemma Opened(d: Decoder, m: Message, tail: seq<byte>) returns (d1: Decoder, d2: Decoder)
    requires WellFormed(m) && DecoderOk(d) && d.phase == Head
    requires d.conn == TsConn.Conn(Encode(m) + tail, [], false)
    ensures DecoderOk(d1) && d1 == Step(d, Resume) && d2 == Step(d1, Resume)
    ensures d2 == Decoder(TsConn.Conn(Payload(m) + tail, [], false),
                          if m.Data? then Body([DATA] + Fields(m)) else Head,
                          if m.Data? then d.out else d.out + [m])
    ensures m.Data? ==> |[DATA] + Fields(m)| == 9 && Length([DATA] + Fields(m)) == |m.data|
  {
    var s := Encode(m) + tail;
    EncodeFields(m, tail);
    HeadBytes(m, tail, s, []);
    d1 := Step(d, Resume);
    var k := |Fields(m)|;
    SliceOfSlice(s, 1, |s|, 0, k);
    SliceOfSlice(s, 1, |s|, k, |s| - 1);
    assert s[1..|s|] == s[1..] == d1.conn.buf;
    FeedRest(d1, m);
    d2 := Step(d1, Resume);
    if m.Data? {
      var head := [DATA] + Fields(m);
      assert head[1..] == Fields(m);
      SliceOfSlice(head, 1, 9, 4, 8);
      GetPut(m.length);
    }
  }

  /** An empty payload with anything behind it: the read of length 0 swallows what is buffered, and the
      packet does not fit the buffer made for it. */
  lemma SwallowOne(d: Decoder, m: Message, tail: seq<byte>) returns (es: seq<Event>)
    requires WellFormed(m) && DecoderOk(d) && d.phase == Head && m.Data? && m.data == [] && tail != []
    requires d.conn == TsConn.Conn(Encode(m) + tail, [], false)
    ensures ResumesOnly(es) && Run(d, es).phase == Stopped(RangeError)
  {
    var d1, d2 := Opened(d, m, tail);
    assert Payload(m) + tail == tail;
    TsConn.JoinedTwo([DATA] + Fields(m), tail);
    es := [Resume, Resume, Resume];
    assert Run(d, es) == Run(d1, es[1..]) == Run(d2, es[2..]) == Run(Step(d2, Resume), []);
  }

  lemma {:induction false} RunAppend(d: Decoder, a: seq<Event>, b: seq<Event>)
    requires DecoderOk(d)
    ensures Run(d, a + b) == Run(Run(d, a), b)
    ensures Received(a + b) == Received(a) + Received(b)
    decreases |a|
  {
    if a == [] {
      assert a + b == b;
    } else {
      assert (a + b)[0] == a[0] && (a + b)[1..] == a[1..] + b;
      RunAppend(Step(d, a[0]), a[1..], b);
      Regroup(Delivers(a[0]), Received(a[1..]), Received(b));
    }
  }

  lemma {:induction false} EmptyDataFails(d: Decoder, ms: seq<Message>) returns (es: seq<Event>)
    requires AllWellFormed(ms) && !NoEmptyDataInside(ms)
    requires DecoderOk(d) && d.phase == Head && d.conn == TsConn.Conn(EncodeAll(ms), [], false)
    ensures ResumesOnly(es) && Run(d, es).phase == Stopped(RangeError)
    decreases |ms|
  {
    hide Step;
    var m, tail := ms[0], EncodeAll(ms[1..]);
    EncodeAllFirst(ms, []);
    assert EncodeAll(ms) + [] == EncodeAll(ms) && tail + [] == tail;
    if m.Data? && m.data == [] {
      EncodeAllFirst(ms[1..], []);
      es := SwallowOne(d, m, tail);
    } else {
      hide Encode;
      var first := ReadOne(d, m, tail);
      var i :| 0 <= i < |ms| - 1 && ms[i].Data? && ms[i].data == [];
      assert ms[1..][i - 1] == ms[i];
      var rest := EmptyDataFails(Run(d, first), ms[1..]);
      RunAppend(d, first, rest);
      es := first + rest;
    }
  }

  // ---------------------------------------------------------------- exactly when chunks do not matter

  /** The socket stays open. */
  predicate SocketOpen(es: seq<Event>) {
    CloseSocket !in es
  }

  predicate StillOpen(d: Decoder) {
    !d.conn.isClosed && (d.phase.Stopped? ==> Failed(d))
  }

  /** On an open socket a decoder stops only by failing. */
  lemma {:induction false} StaysOpen(d: Decoder, es: seq<Event>)
    requires DecoderOk(d) && StillOpen(d) && SocketOpen(es)
    ensures StillOpen(Run(d, es))
    decreases |es|
  {
    if es != [] {
      assert es[0] in es;
      StaysOpen(Step(d, es[0]), es[1..]);
    }
  }

  /**
   However the encodings of ms are cut and read on an open socket, decoding does not fail and yields nothing
   but a prefix of ms; and when it has come to rest, it has yielded all of ms.
   */
  ghost predicate Independent(ms: seq<Message>) {
    forall es | SocketOpen(es) && Received(es) == EncodeAll(ms) :: YieldsAll(es, ms)
  }

  predicate YieldsAll(es: seq<Event>, ms: seq<Message>) {
    var d := Run(START, es);
    !Failed(d) && d.out <= ms && (Idle(d) ==> d.out == ms)
  }

  /** Decoding is independent of the chunks exactly when no data message but the last is empty. */
  lemma IndependentIff(ms: seq<Message>)
    requires AllWellFormed(ms)
    ensures Independent(ms) <==> NoEmptyDataInside(ms)
  {
    if NoEmptyDataInside(ms) {
      forall es | SocketOpen(es) && Received(es) == EncodeAll(ms) ensures YieldsAll(es, ms) {
        assert Received(es) + [] == EncodeAll(ms);
        ChunkIndependence(es, ms, []);
        StaysOpen(START, es);
      }
    } else {
      var all := [Chunk(EncodeAll(ms))];
      var d := Step(START, all[0]);
      assert Run(START, all) == Run(d, []) && Received(all) == EncodeAll(ms) + Received([]);
      assert d.conn == TsConn.Conn(EncodeAll(ms), [], false);
      var es := EmptyDataFails(d, ms);
      RunAppend(START, all, es);
      ResumesBring(es);
      assert Received(all + es) == EncodeAll(ms) && SocketOpen(all + es);
      assert !YieldsAll(all + es, ms);
    }
  }
}
