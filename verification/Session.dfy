/**
 The session of golang/mux/session.go as an object. A channel the users share with the session is
 named by its place in `heap`; Channel.dfy has the channel itself as an object.
 */
module Session {
  import opened Wrappers
  import opened Wire
  import opened Endpoint
  import Channel
  import ChanList
  import GoCodec
  import Table

  // ---------------------------------------------------------------- the loop as a function

  /** One message processed, with all its steps in a row, on a transport that takes `accepts` more messages:
      only the answer to an open request passes the transport's error on. */
  function WholePacket(s: Sess, m: Message, accepts: nat): (r: Reply)
    requires Sound(s)
    ensures Sound(r.s) && |r.out| <= accepts
  {
    PacketSound(s, m);
    var first := OnePacket(s, m);
    var second := Proceed(first.s);
    var third := Proceed(second.s);
    Reply(third.s, Taken(first.out + second.out + third.out, accepts),
          if m.Open? && accepts == 0 then Some(Transport) else first.err)
  }

  lemma PacketSound(s: Sess, m: Message)
    requires Sound(s)
    ensures var s' := OnePacket(s, m).s;
            Sound(s') && Sound(Proceed(s').s) && Sound(Proceed(Proceed(s').s).s)
  {
    hide OnePacket;
    OnePacketSound(s, m);
    var s' := OnePacket(s, m).s;
    ProceedSound(s');
    ProceedSound(Proceed(s').s);
  }

  lemma OnePacketSound(s: Sess, m: Message)
    requires Sound(s)
    ensures Sound(OnePacket(s, m).s)
  {
  }

  lemma ProceedSound(s: Sess)
    requires Sound(s)
    ensures Sound(Proceed(s).s)
  {
  }

  function DecodeError(e: WireError): Error {
    match e
    case EndOfStream => Transport
    case UnexpectedType(id) => UnexpectedMessage(id)
  }

  /** The session a run of the loop ends in, and what it sent. */
  datatype Ended = Ended(s: Sess, out: seq<Message>)

  /** `loop` on the bytes that the transport yields before it fails. */
  function LoopRun(s: Sess, stream: seq<byte>, accepts: nat): Ended
    requires Sound(s)
    decreases |stream|
  {
    match Decode(stream)
    case Err(x) => Ended(Teardown(s, DecodeError(x)), [])
    case Ok((m, left)) =>
      var r := WholePacket(s, m, accepts);
      match r.err
      case Some(e) => Ended(Teardown(r.s, e), r.out)
      case None =>
        var rest := LoopRun(r.s, left, accepts - |r.out|);
        Ended(rest.s, r.out + rest.out)
  }

  /** Some messages processed one after the other, up to the first error. */
  function Processed(s: Sess, ms: seq<Message>, accepts: nat): (r: Reply)
    requires Sound(s)
    ensures Sound(r.s)
    decreases |ms|
  {
    if ms == [] then Reply(s, [], None)
    else
      var first := WholePacket(s, ms[0], accepts);
      if first.err.Some? then first
      else
        var rest := Processed(first.s, ms[1..], accepts - |first.out|);
        rest.(out := first.out + rest.out)
  }

  /** The loop goes on until there is an error: it has processed the messages ms, and either the last of them
      has raised one, and none before, or what follows them on the stream does not decode. */
  lemma {:induction false} LoopEnds(s: Sess, stream: seq<byte>, accepts: nat)
    returns (ms: seq<Message>, left: seq<byte>, e: Error)
    requires Sound(s)
    ensures stream == EncodeAll(ms) + left && AllWellFormed(ms)
    ensures var r := Processed(s, ms, accepts);
            && LoopRun(s, stream, accepts) == Ended(Teardown(r.s, e), r.out)
            && (match r.err
                case Some(x) => e == x
                case None => Decode(left).Err? && e == DecodeError(Decode(left).error))
    ensures forall k | 0 <= k < |ms| :: Processed(s, ms[..k], accepts).err.None?
    decreases |stream|
  {
    hide Wire.Encode, Decode, WholePacket, Teardown, EncodeAll;
    match Decode(stream)
    case Err(x) =>
      ms, left, e := [], stream, DecodeError(x);
      EncodeNone();
      NothingMore(stream);
    case Ok((m, rest)) =>
      EncodeDecode(stream);
      EncodeSome(m);
      var r := WholePacket(s, m, accepts);
      if r.err.Some? {
        ms, left, e := [m], rest, r.err.value;
        EncodeAllFirst(ms, left);
        EncodeNone();
        NothingMore(left);
        assert ms[..0] == [] && ms[1..] == [];
      } else {
        var more;
        more, left, e := LoopEnds(r.s, rest, accepts - |r.out|);
        ms := [m] + more;
        assert ms[1..] == more;
        EncodeAllFirst(ms, left);
        assert ms[..0] == [];
        forall k | 0 < k < |ms| ensures Processed(s, ms[..k], accepts).err.None? {
          assert ms[..k][1..] == more[..k - 1];
        }
      }
  }

  /** `loop` on messages. */
  function MessageRun(s: Sess, inbox: seq<Message>, accepts: nat): Ended
    requires Sound(s)
    decreases |inbox|
  {
    if inbox == [] then Ended(Teardown(s, Transport), [])
    else
      var r := WholePacket(s, inbox[0], accepts);
      match r.err
      case Some(e) => Ended(Teardown(r.s, e), r.out)
      case None =>
        var rest := MessageRun(r.s, inbox[1..], accepts - |r.out|);
        Ended(rest.s, r.out + rest.out)
  }

  /** The loop on the encodings of some messages processes these messages. */
  lemma {:induction false} LoopDecodes(s: Sess, inbox: seq<Message>, accepts: nat)
    requires Sound(s) && AllWellFormed(inbox)
    ensures LoopRun(s, EncodeAll(inbox), accepts) == MessageRun(s, inbox, accepts)
    decreases |inbox|
  {
    hide Wire.Encode, Decode, WholePacket;
    if inbox == [] {
      NothingDecodes();
    } else {
      assert inbox[0..] == inbox;
      DecodeAt(inbox, 0);
      var r := WholePacket(s, inbox[0], accepts);
      if r.err.None? {
        LoopDecodes(r.s, inbox[1..], accepts - |r.out|);
      }
    }
  }

  lemma EncodeSome(m: Message)
    ensures Wire.Encode(m) != []
  {
  }

  lemma EncodeNone()
    ensures EncodeAll([]) == []
  {
  }

  lemma NothingDecodes()
    ensures Decode(EncodeAll([])) == Err(EndOfStream)
  {
  }

  /** A run that has sent some messages and is about to process the rest of the stream. */
  ghost predicate RunAt(target: Ended, s: Sess, sent: seq<Message>, left: seq<byte>, accepts: nat)
    requires Sound(s)
  {
    var r := LoopRun(s, left, accepts);
    target == Ended(r.s, sent + r.out)
  }

  lemma RunStarts(s: Sess, stream: seq<byte>, accepts: nat)
    requires Sound(s)
    ensures RunAt(LoopRun(s, stream, accepts), s, [], stream, accepts)
  {
    var r := LoopRun(s, stream, accepts);
    assert [] + r.out == r.out;
  }

  lemma RunProceeds(target: Ended, s: Sess, sent: seq<Message>, left: seq<byte>, accepts: nat)
    requires Sound(s) && RunAt(target, s, sent, left, accepts)
    ensures match Decode(left)
            case Err(x) => target == Ended(Teardown(s, DecodeError(x)), sent)
            case Ok((m, rest)) =>
              var r := WholePacket(s, m, accepts);
              match r.err
              case None => |rest| < |left| && RunAt(target, r.s, sent + r.out, rest, accepts - |r.out|)
              case Some(e) => target == Ended(Teardown(r.s, e), sent + r.out)
  {
    hide WholePacket;
    match Decode(left)
    case Err(x) => assert sent + [] == sent;
    case Ok((m, rest)) =>
      var r := WholePacket(s, m, accepts);
      if r.err.None? {
        var more := LoopRun(r.s, rest, accepts - |r.out|);
        assert sent + (r.out + more.out) == (sent + r.out) + more.out;
      }
  }

  // ---------------------------------------------------------------- the queue for `Accept`

  /** The inbound channels, in the order of their creation. */
  function Inbounds(heap: seq<Chan>): seq<nat> {
    if heap == [] then []
    else Inbounds(heap[..|heap| - 1]) + if heap[|heap| - 1].direction.Inbound? then [|heap| - 1] else []
  }

  lemma {:induction false} InboundsStay(heap: seq<Chan>, heap': seq<Chan>)
    requires |heap| == |heap'| && forall u | 0 <= u < |heap| :: heap'[u].direction == heap[u].direction
    ensures Inbounds(heap') == Inbounds(heap)
  {
    if heap != [] {
      InboundsStay(heap[..|heap| - 1], heap'[..|heap| - 1]);
    }
  }

  // ---------------------------------------------------------------- the object

  class Session {
    const chanList: ChanList.ChanList<nat>
    const enc: Channel.Encoder
    const dec: GoCodec.Reader
    var heap: seq<Chan>
    var incoming: seq<nat>
    var err: Option<Error>
    var connClosed: bool
    var closeSignals: nat

    ghost function Model(): Sess
      reads this, chanList
    {
      Sess(chanList.chans, heap, err, Idle)
    }

    /** Every inbound channel was queued for `Accept`, in the order of their creation. */
    ghost predicate Valid()
      reads this, chanList
    {
      Sound(Model()) && incoming == Inbounds(heap)
    }

    /** The transport, which had taken `out` and took `accepts` more, has been given some messages. */
    ghost predicate Sent(out: seq<Message>, accepts: nat, ms: seq<Message>)
      reads this, enc
    {
      enc.out == out + Taken(ms, accepts) && enc.accepts == accepts - |Taken(ms, accepts)|
    }

    constructor (stream: seq<byte>, accepts: nat)
      ensures Valid() && fresh(chanList) && fresh(enc) && fresh(dec)
      ensures Model() == Sess([], [], None, Idle) && !connClosed && closeSignals == 0
      ensures enc.out == [] && enc.accepts == accepts && dec.stream == stream
    {
      chanList := new ChanList.ChanList<nat>();
      enc := new Channel.Encoder(accepts);
      dec := new GoCodec.Reader(stream);
      heap, incoming, err, connClosed, closeSignals := [], [], None, false, 0;
    }

    /** Channel u has come to the heap and is in the least free slot of the table; nothing else has changed. */
    ghost predicate Added(u: nat, before: seq<Chan>, chans: seq<Option<nat>>)
      reads this, chanList
    {
      var i := Table.FirstFree(chans);
      && u == |before| && |heap| == u + 1 && heap[..u] == before
      && i < |chanList.chans| == (if i < |chans| then |chans| else |chans| + 1)
      && chanList.chans[i] == Some(u)
      && (forall j | 0 <= j < |chans| && j != i :: chanList.chans[j] == chans[j])
    }

    method NewChannel(direction: Direction) returns (u: nat)
      requires Sound(Model())
      modifies this`heap, chanList
      ensures Sound(Model()) && u == |old(heap)|
      ensures Model() == AddChan(old(Model()), NewChan(NextId(old(Model())), direction))
      ensures Added(u, old(heap), old(chanList.chans))
      ensures heap[u] == Chan(Uint32(Table.FirstFree(old(chanList.chans))), 0, 0, 0, direction, [], false, false, false,
                              0, false, [], false, 0x20_0000)
    {
      u := |heap|;
      var id := chanList.Add(u);
      heap := heap + [NewChan(id, direction)];
      Table.PutExact(old(chanList.chans), u);
    }

    /** `Open` up to the point where it waits for the response. When the request cannot be sent the channel
        stays in the table. */
    method Open() returns (u: nat, ok: bool)
      requires Valid()
      modifies this`heap, chanList, enc
      ensures Valid() && u == |old(heap)| && ok == (old(enc.accepts) > 0)
      ensures var r := OpenChannel(old(Model()));
              Model() == r.s && Sent(old(enc.out), old(enc.accepts), r.out)
      ensures Added(u, old(heap), old(chanList.chans))
      ensures var id := Uint32(Table.FirstFree(old(chanList.chans)));
              && heap[u] == Chan(id, 0, 0x8000, 0, Outbound, [], false, false, false, 0, false, [], false, 0x20_0000)
              && enc.out == old(enc.out) + (if ok then [Message.Open(id, 0x20_0000, 0x8000)] else [])
              && enc.accepts == old(enc.accepts) - if ok then 1 else 0
    {
      u := NewChannel(Outbound);
      var c := heap[u].(maxIncomingPayload := CHANNEL_MAX_PACKET);
      heap := heap[u := c];
      assert heap[..u] == old(heap);
      ok := enc.Encode(Message.Open(c.localId, c.myWindow, c.maxIncomingPayload));
    }

    /** The first step of `handleOpen`, for a good packet size: create the channel and queue it for `Accept`.
        Nothing has been sent. */
    method Queue(m: Message) returns (u: nat)
      requires Valid() && m.Open? && GoodPacketSize(m.maxPacketSize)
      modifies this`heap, this`incoming, chanList
      ensures Valid() && u == |old(heap)| && incoming == old(incoming) + [u]
      ensures Model() == Endpoint.HandleOpen(old(Model()), m).s.(loop := Idle)
      ensures Endpoint.HandleOpen(old(Model()), m).s.loop == Confirming(u)
      ensures Added(u, old(heap), old(chanList.chans))
      ensures var id := Uint32(Table.FirstFree(old(chanList.chans)));
              heap[u] == Chan(id, m.senderId, 0x8000, m.maxPacketSize, Inbound, [], false, false, false,
                              m.windowSize, false, [], false, 0x20_0000)
    {
      u := NewChannel(Inbound);
      var c := heap[u].(
        remoteId := m.senderId,
        maxRemotePayload := m.maxPacketSize,
        remoteWin := m.windowSize,
        maxIncomingPayload := CHANNEL_MAX_PACKET);
      heap := heap[u := c];
      assert heap[..u] == old(heap);
      incoming := incoming + [u];
    }

    /** What the steps of handling an open request come to in a row. */
    lemma OpenSteps(s: Sess, m: Message)
      requires Sound(s) && s.loop.Idle? && m.Open?
      ensures var r := Endpoint.HandleOpen(s, m);
              && Sound(r.s)
              && var c := Endpoint.Proceed(r.s);
                 if GoodPacketSize(m.maxPacketSize) then
                   && c.s == r.s.(loop := Idle) && |r.s.heap| == |s.heap| + 1
                   && r.out + c.out == [Confirm(r.s.heap[|s.heap|])]
                 else c.s == s && r.out + c.out == [OpenFailure(m.senderId)]
    {
    }

    method HandleOpen(m: Message) returns (e: Option<Error>)
      requires Valid() && m.Open?
      modifies this`heap, this`incoming, chanList, enc
      ensures Valid() && e == if old(enc.accepts) > 0 then None else Some(Transport)
      ensures var good := 9 <= m.maxPacketSize <= 0x8000_0000;
              var u, id := |old(heap)|, Uint32(Table.FirstFree(old(chanList.chans)));
              var answer := if good then OpenConfirm(m.senderId, id, 0x20_0000, 0x8000) else OpenFailure(m.senderId);
              && enc.out == old(enc.out) + (if old(enc.accepts) > 0 then [answer] else [])
              && enc.accepts == old(enc.accepts) - (if old(enc.accepts) > 0 then 1 else 0)
              && (!good ==> heap == old(heap) && chanList.chans == old(chanList.chans) && incoming == old(incoming))
              && (good ==>
                    && incoming == old(incoming) + [u] && Added(u, old(heap), old(chanList.chans))
                    && heap[u] == Chan(id, m.senderId, 0x8000, m.maxPacketSize, Inbound, [], false, false, false,
                                       m.windowSize, false, [], false, 0x20_0000))
      ensures var r := Endpoint.HandleOpen(old(Model()), m);
              var c := Endpoint.Proceed(r.s);
              Model() == c.s && Sent(old(enc.out), old(enc.accepts), r.out + c.out)
    {
      hide Endpoint.HandleOpen, Endpoint.Proceed, Inbounds, Sound;
      OpenSteps(Model(), m);
      var ok;
      if m.maxPacketSize < MIN_PACKET_LENGTH || m.maxPacketSize > MAX_PACKET_LENGTH {
        ok := enc.Encode(OpenFailure(m.senderId));
        return if ok then None else Some(Transport);
      }
      var u := Queue(m);
      var c := heap[u];
      ok := enc.Encode(OpenConfirm(c.remoteId, c.localId, c.myWindow, c.maxIncomingPayload));
      return if ok then None else Some(Transport);
    }

    /** Put back a channel that has handled a message. */
    method Put(u: nat, h: Handled)
      requires Valid() && u < |heap| && !h.closing && |h.out| <= 1 && h.c.direction == heap[u].direction
      modifies this`heap, chanList, enc
      ensures Valid() && Model() == Settle(old(Model()), u, h) && Sent(old(enc.out), old(enc.accepts), h.out)
    {
      InboundsStay(heap, heap[u := h.c]);
      heap := heap[u := h.c];
      if h.freed.Some? {
        chanList.Remove(h.freed.value);
      }
      if h.out != [] {
        assert h.out == [h.out[0]];
        var _ := enc.Encode(h.out[0]);
      } else {
        assert enc.out + [] == enc.out;
      }
    }

    /** A handler whose steps happen in a row is the handling of its message. */
    lemma WholeSteps(s: Sess, u: nat, m: Message, accepts: nat)
      requires Sound(s) && s.loop.Idle? && !m.Open? && Table.Get(s.table, m.channelId) == Some(u) && u < |s.heap|
      ensures var h := HandleWhole(s.heap[u], m);
              && !h.closing && |h.out| <= 1 && h.c.direction == s.heap[u].direction
              && WholePacket(s, m, accepts) == Reply(Settle(s, u, h), Taken(h.out, accepts), h.err)
    {
      var r := Handle(s.heap[u], m);
      assert s.heap[u := r.c][u := Shut(r.c)] == s.heap[u := Shut(r.c)];
      assert Send(s.heap[u], m).c.localId == s.heap[u].localId;
      NothingMore(r.out);
    }

    /** Process a message. */
    method Dispatch(m: Message) returns (e: Option<Error>)
      requires Valid()
      modifies this`heap, this`incoming, chanList, enc
      ensures Valid()
      ensures var r := WholePacket(old(Model()), m, old(enc.accepts));
              && Model() == r.s && e == r.err
              && enc.out == old(enc.out) + r.out && enc.accepts == old(enc.accepts) - |r.out|
      ensures !m.Open? && |old(chanList.chans)| < 0x1_0000_0000 ==>
                var known := m.channelId < |old(chanList.chans)| && old(chanList.chans)[m.channelId].Some?;
                && incoming == old(incoming)
                && (!known ==>
                      && e == Some(InvalidChannel(m.channelId)) && heap == old(heap)
                      && chanList.chans == old(chanList.chans) && enc.out == old(enc.out))
                && (known ==>
                      var u := old(chanList.chans)[m.channelId].value;
                      u < |old(heap)| && e == HandleWhole(old(heap)[u], m).err
                      && heap == old(heap)[u := HandleWhole(old(heap)[u], m).c])
    {
      if m.Open? {
        e := HandleOpen(m);
        return;
      }
      var u := chanList.GetChan(m.channelId);
      if u.None? {
        assert enc.out == old(enc.out) + [];
        return Some(InvalidChannel(m.channelId));
      }
      WholeSteps(Model(), u.value, m, enc.accepts);
      hide WholePacket;
      var h := HandleWhole(heap[u.value], m);
      Put(u.value, h);
      e := h.err;
    }

    /** Read one packet and process it. */
    method OnePacket() returns (e: Option<Error>)
      requires Valid()
      modifies this`heap, this`incoming, chanList, enc, dec
      ensures Valid()
      ensures match Decode(old(dec.stream))
              case Err(x) =>
                && e == Some(DecodeError(x)) && Model() == old(Model()) && enc.out == old(enc.out)
                && (x == EndOfStream ==> e == Some(Transport))
                && (x.UnexpectedType? ==> e == Some(UnexpectedMessage(x.id)))
              case Ok((m, left)) =>
                var r := WholePacket(old(Model()), m, old(enc.accepts));
                && Model() == r.s && e == r.err && dec.stream == left
                && enc.out == old(enc.out) + r.out && enc.accepts == old(enc.accepts) - |r.out|
    {
      var m := GoCodec.Decode(dec);
      match m
      case Err(x) => e := Some(DecodeError(x));
      case Ok(msg) => e := Dispatch(msg);
    }

    method ShutAll(drops: seq<nat>)
      requires forall u | u in drops :: u < |heap|
      modifies this`heap
      ensures |heap| == |old(heap)|
      ensures forall u | 0 <= u < |heap| :: heap[u] == if u in drops then Shut(old(heap)[u]) else old(heap)[u]
    {
      for i := 0 to |drops|
        invariant |heap| == |old(heap)|
        invariant forall u | 0 <= u < |heap| :: heap[u] == if u in drops[..i] then Shut(old(heap)[u]) else old(heap)[u]
      {
        assert drops[i] in drops;
        assert drops[..i + 1] == drops[..i] + [drops[i]];
        heap := heap[drops[i] := Shut(heap[drops[i]])];
      }
      assert drops[..|drops|] == drops;
    }

    lemma Listing(s: Sess, drops: seq<nat>)
      requires Sound(s) && drops == Table.Listed(s.table)
      ensures forall u :: u in drops <==> Some(u) in s.table
      ensures forall u | u in drops :: u < |s.heap|
    {
      Table.ListedHas(s.table);
    }

    lemma TornDown(s: Sess, drops: seq<nat>, heap': seq<Chan>, e: Error)
      requires |heap'| == |s.heap| && forall u :: u in drops <==> Some(u) in s.table
      requires forall u | 0 <= u < |heap'| :: heap'[u] == if u in drops then Shut(s.heap[u]) else s.heap[u]
      ensures Teardown(s, e) == Sess([], heap', Some(e), Idle) && Sound(Teardown(s, e))
      ensures Inbounds(heap') == Inbounds(s.heap)
    {
      assert heap' == Teardown(s, e).heap;
      InboundsStay(s.heap, heap');
    }

    /** The end of the loop: close every channel in the table, drop the table, close the transport, wake one
        `Accept`, and keep the error. */
    method CloseAll(e: Error)
      requires Valid()
      modifies this, chanList
      ensures Valid() && Model() == Teardown(old(Model()), e)
      ensures connClosed && closeSignals == old(closeSignals) + 1
      ensures err == Some(e) && chanList.chans == [] && incoming == old(incoming) && |heap| == |old(heap)|
      ensures forall u | 0 <= u < |heap| ::
                var c := old(heap)[u];
                heap[u] == if Some(u) in old(chanList.chans)
                           then c.(pendingClosed := true, msgClosed := true, sentClose := true, winClosed := true)
                           else c
    {
      hide Inbounds, Teardown, Table.Listed, Sound;
      ghost var s := Model();
      var drops := chanList.DropAll();
      Listing(s, drops);
      ShutAll(drops);
      TornDown(s, drops, heap, e);
      connClosed := true;
      closeSignals := closeSignals + 1;
      err := Some(e);
    }

    /** One turn of the loop, in a run that comes to target. */
    method Turn(ghost target: Ended, ghost sent: seq<Message>) returns (failed: Option<Error>, ghost more: seq<Message>)
      requires Valid() && RunAt(target, Model(), sent, dec.stream, enc.accepts)
      modifies this`heap, this`incoming, chanList, enc, dec
      ensures Valid() && enc.out == old(enc.out) + more
      ensures failed.None? ==>
                |dec.stream| < |old(dec.stream)| && RunAt(target, Model(), sent + more, dec.stream, enc.accepts)
      ensures failed.Some? ==> target == Ended(Teardown(Model(), failed.value), sent + more)
    {
      hide LoopRun, RunAt, WholePacket, Teardown;
      RunProceeds(target, Model(), sent, dec.stream, enc.accepts);
      more := if Decode(dec.stream).Ok? then WholePacket(Model(), Decode(dec.stream).value.0, enc.accepts).out else [];
      assert enc.out + [] == enc.out && sent + [] == sent;
      failed := OnePacket();
    }

    /** Process packets until one ends in an error or the transport yields no more. */
    method Drain() returns (e: Error, ghost sent: seq<Message>)
      requires Valid()
      modifies this`heap, this`incoming, chanList, enc, dec
      ensures Valid() && enc.out == old(enc.out) + sent
      ensures LoopRun(old(Model()), old(dec.stream), old(enc.accepts)) == Ended(Teardown(Model(), e), sent)
    {
      hide LoopRun, RunAt, Teardown;
      ghost var target, more := LoopRun(Model(), dec.stream, enc.accepts), [];
      RunStarts(Model(), dec.stream, enc.accepts);
      sent := [];
      NothingMore(enc.out);
      var failed := None;
      while failed.None?
        invariant Valid() && enc.out == old(enc.out) + sent
        invariant failed.None? ==> RunAt(target, Model(), sent, dec.stream, enc.accepts)
        invariant failed.Some? ==> target == Ended(Teardown(Model(), failed.value), sent)
        decreases failed.None?, |dec.stream|
      {
        failed, more := Turn(target, sent);
        Regroup(old(enc.out), sent, more);
        sent := sent + more;
      }
      e := failed.value;
    }

    /** The loop of the session. */
    method Loop()
      requires Valid()
      modifies this, chanList, enc, dec
      ensures Valid() && old(enc.out) <= enc.out
      ensures LoopRun(old(Model()), old(dec.stream), old(enc.accepts)) == Ended(Model(), enc.out[|old(enc.out)|..])
      ensures connClosed && closeSignals == old(closeSignals) + 1 && err.Some? && chanList.chans == []
    {
      var e, sent := Drain();
      CloseAll(e);
    }
  }
}
