/**
 Length-prefixed frames over a TypeScript channel: `FrameCodec` in javascript/rpc/codec.ts.
 The payload codec is left out, so a value is the bytes of its frame. `readLoop` is a coroutine that
 stops at each read; here it is the state between two reads.
 */
module TsFrames {
  import opened Wrappers
  import opened Wire
  import TsChannel
  import TsConn

  type Frame = seq<byte>

  // ---------------------------------------------------------------- encoding

  /** What `encode` writes, in two writes. */
  function EncodeFrame(f: Frame): seq<byte> {
    PutU32(|f| % TWO32) + f
  }

  function EncodeFrames(fs: seq<Frame>): seq<byte> {
    if fs == [] then [] else EncodeFrame(fs[0]) + EncodeFrames(fs[1..])
  }

  /** A frame is its length, most significant byte first, and its bytes. */
  lemma FrameBytes(f: Frame)
    ensures |EncodeFrame(f)| == 4 + |f| && At(EncodeFrame(f), 0, |f| % 0x1_0000_0000) && EncodeFrame(f)[4..] == f
  {
    BigEndian(EncodeFrame(f), 0, |f| % TWO32);
  }

  // ---------------------------------------------------------------- values waiting for calls, calls waiting for values

  /** `buf` and `waiters`; a waiter is the number of its `decode` call. `resolved` is, as history, which
      call got which frame, in the order this happened. */
  datatype Desk = Desk(buf: seq<Frame>, waiters: seq<nat>, calls: nat, resolved: seq<(nat, Frame)>)

  /** The end of a turn of `readLoop`. */
  function Deliver(k: Desk, f: Frame): Desk {
    if |k.waiters| > 0 then k.(waiters := k.waiters[1..], resolved := k.resolved + [(k.waiters[0], f)])
    else k.(buf := k.buf + [f])
  }

  /** `decode`. */
  function Call(k: Desk): Desk {
    if |k.buf| > 0 then k.(buf := k.buf[1..], calls := k.calls + 1, resolved := k.resolved + [(k.calls, k.buf[0])])
    else k.(waiters := k.waiters + [k.calls], calls := k.calls + 1)
  }

  /** The k-th call has the k-th frame, or waits for it; frames and calls never both wait. */
  predicate InOrder(k: Desk, frames: seq<Frame>) {
    && |k.resolved| + |k.buf| == |frames|
    && (forall i | 0 <= i < |k.resolved| :: k.resolved[i] == (i, frames[i]))
    && k.buf == frames[|k.resolved|..]
    && |k.resolved| + |k.waiters| == k.calls
    && (forall i | 0 <= i < |k.waiters| :: k.waiters[i] == |k.resolved| + i)
    && (k.buf == [] || k.waiters == [])
  }

  lemma DeliverInOrder(k: Desk, frames: seq<Frame>, f: Frame)
    requires InOrder(k, frames)
    ensures InOrder(Deliver(k, f), frames + [f])
  {
  }

  lemma CallInOrder(k: Desk, frames: seq<Frame>)
    requires InOrder(k, frames)
    ensures InOrder(Call(k), frames)
  {
  }

  /** The same two arrays as an object. */
  class Queue {
    var buf: seq<Frame>
    var waiters: seq<nat>
    var calls: nat
    ghost var resolved: seq<(nat, Frame)>
    ghost var frames: seq<Frame>

    ghost function Model(): Desk
      reads this
    {
      Desk(buf, waiters, calls, resolved)
    }

    ghost predicate Valid()
      reads this
    {
      InOrder(Model(), frames)
    }

    constructor ()
      ensures Valid() && Model() == Desk([], [], 0, []) && frames == []
    {
      buf, waiters, calls, resolved, frames := [], [], 0, [], [];
    }

    /** Hand the value to the call that has waited longest, or keep it. */
    method Push(f: Frame) returns (call: Option<nat>)
      requires Valid()
      modifies this
      ensures Valid() && frames == old(frames) + [f]
      ensures Model() == Deliver(old(Model()), f)
      ensures call == if old(waiters) == [] then None else Some(|old(resolved)|)
    {
      DeliverInOrder(Model(), frames, f);
      frames := frames + [f];
      if |waiters| > 0 {
        call := Some(waiters[0]);
        resolved := resolved + [(waiters[0], f)];
        waiters := waiters[1..];
      } else {
        call := None;
        buf := buf + [f];
      }
    }

    /** Take the oldest value, or wait for one. */
    method Decode() returns (call: nat, f: Option<Frame>)
      requires Valid()
      modifies this
      ensures Valid() && frames == old(frames) && call == old(calls)
      ensures Model() == Call(old(Model()))
      ensures f == if call < |frames| then Some(frames[call]) else None
    {
      CallInOrder(Model(), frames);
      call := calls;
      if |buf| > 0 {
        f := Some(buf[0]);
        resolved := resolved + [(calls, buf[0])];
        buf := buf[1..];
      } else {
        f := None;
        waiters := waiters + [call];
      }
      calls := calls + 1;
    }
  }

  // ---------------------------------------------------------------- the read loop

  /** Between two reads: before a frame, after its length, or stopped. */
  datatype Phase = Prefix | Body(size: u32) | Stopped

  /** `frames` is, as history, every frame the loop has completed; `readCount` is their number. */
  datatype Codec = Codec(chan: TsChannel.Chan, phase: Phase, desk: Desk, frames: seq<Frame>, readLimit: int)

  /** Data handled by the channel, its Eof, the coroutine continuing, or a call of `decode`. */
  datatype Event = Receive(data: seq<byte>) | PeerEof | Resume | DecodeCall

  function Start(window: u32, packet: u32, readLimit: int): Codec {
    Codec(TsChannel.Chan(Some([]), [], false, window, packet), Prefix, Desk([], [], 0, []), [], readLimit)
  }

  function Need(p: Phase): nat {
    match p
    case Prefix => 4
    case Body(size) => size
    case Stopped => 0
  }

  predicate LimitReached(d: Codec) {
    d.readLimit > 0 && |d.frames| >= d.readLimit
  }

  predicate Waiting(d: Codec) {
    d.chan.readers != []
  }

  /** At most one reader waits, for what the loop needs. */
  predicate CodecOk(d: Codec) {
    d.chan.readers == [] || (!d.phase.Stopped? && d.chan.readers == [Need(d.phase)])
  }

  function Answered(d: Codec, r: TsChannel.Reply): Codec
    requires r.answer.Got? ==> |r.answer.bytes| >= Need(d.phase)
  {
    match r.answer
    case Later => d.(chan := r.c)
    case Undefined => d.(chan := r.c, phase := Stopped)
    case Got(bytes) =>
      match d.phase
      case Prefix => d.(chan := r.c, phase := Body(GetU32(bytes[..4])))
      case Body(_) => d.(chan := r.c, phase := Prefix, desk := Deliver(d.desk, bytes), frames := d.frames + [bytes])
      case Stopped => d
  }

  /** The loop tries the read it needs; before a frame it looks at its limit first. */
  function Attempt(d: Codec): Codec {
    if d.phase.Prefix? && LimitReached(d) then d.(phase := Stopped)
    else Answered(d, TsChannel.TryRead(d.chan, Need(d.phase)))
  }

  function Step(d: Codec, e: Event): (r: Codec)
    requires CodecOk(d)
    ensures CodecOk(r)
  {
    match e
    case Receive(data) =>
      var length := |data| % TWO32;
      (match TsChannel.HandleData(d.chan, length, data)
       case Err(_) => d
       case Ok(r) => if d.phase.Stopped? then d.(chan := r.c) else Answered(d, r))
    case PeerEof => d.(chan := d.chan.(gotEOF := true))
    case Resume => if d.phase.Stopped? || Waiting(d) then d else Attempt(d)
    case DecodeCall => d.(desk := Call(d.desk))
  }

  function Run(d: Codec, es: seq<Event>): (r: Codec)
    requires CodecOk(d)
    ensures CodecOk(r)
    decreases |es|
  {
    if es == [] then d else Run(Step(d, es[0]), es[1..])
  }

  // ---------------------------------------------------------------- order over whole runs

  /** Whatever arrives and however calls are interleaved, the k-th call of `decode` gets the k-th frame
      the loop completes, and frames and calls never both wait. */
  lemma {:induction false} CallsInOrder(d: Codec, es: seq<Event>)
    requires CodecOk(d) && InOrder(d.desk, d.frames)
    ensures InOrder(Run(d, es).desk, Run(d, es).frames)
    decreases |es|
  {
    if es != [] {
      StepInOrder(d, es[0]);
      CallsInOrder(Step(d, es[0]), es[1..]);
    }
  }

  lemma StepInOrder(d: Codec, e: Event)
    requires CodecOk(d) && InOrder(d.desk, d.frames)
    ensures InOrder(Step(d, e).desk, Step(d, e).frames)
  {
    var d' := Step(d, e);
    if d'.frames != d.frames {
      DeliverInOrder(d.desk, d.frames, d'.frames[|d.frames|]);
    }
    CallInOrder(d.desk, d.frames);
  }

  /** With a limit, the loop never completes more frames than that. */
  lemma {:induction false} LimitHolds(d: Codec, es: seq<Event>)
    requires CodecOk(d) && d.readLimit > 0 && |d.frames| <= d.readLimit
    requires |d.frames| == d.readLimit ==> !d.phase.Body? && !(d.phase.Prefix? && Waiting(d))
    ensures |Run(d, es).frames| <= d.readLimit
    decreases |es|
  {
    if es != [] {
      LimitHolds(Step(d, es[0]), es[1..]);
    }
  }

  /** Whatever arrives, the loop stops only at its limit, or once its channel has ended. */
  lemma {:induction false} StopsOnlyThen(d: Codec, es: seq<Event>)
    requires CodecOk(d)
    requires d.phase.Stopped? ==> d.chan.readBuf.None? || 0 < d.readLimit <= |d.frames|
    ensures var r := Run(d, es);
            r.phase.Stopped? ==> r.chan.readBuf.None? || 0 < d.readLimit <= |r.frames|
    decreases |es|
  {
    if es != [] {
      var d' := Step(d, es[0]);
      assert d'.readLimit == d.readLimit && d.frames <= d'.frames;
      StopsOnlyThen(d', es[1..]);
    }
  }

  // ---------------------------------------------------------------- which frames, and which bytes

  /** The bytes of the frame that is being read. */
  function Partial(p: Phase): seq<byte> {
    if p.Body? then PutU32(p.size) else []
  }

  /** What was framed: fs, then bytes that are not frames. The loop must not run into these, and among
      the frames it reads only one that ends the stream may be empty. */
  predicate FramesOk(fs: seq<Frame>, tail: seq<byte>, readLimit: int) {
    && (forall i | 0 <= i < |fs| :: |fs[i]| < TWO32)
    && (forall i | 0 <= i < |fs| && (readLimit <= 0 || i < readLimit) && fs[i] == [] :: i == |fs| - 1 && tail == [])
    && (tail == [] || 0 < readLimit <= |fs|)
  }

  /** The loop has completed the first frames of fs; the frame it reads, the buffer and what is to come
      are the rest. */
  predicate On(d: Codec, fs: seq<Frame>, tail: seq<byte>, ahead: seq<byte>) {
    && CodecOk(d)
    && d.frames <= fs
    && (d.readLimit > 0 ==> |d.frames| <= d.readLimit)
    && (LimitReached(d) ==> !d.phase.Body? && !(d.phase.Prefix? && Waiting(d)))
    && (d.phase.Body? ==> |d.frames| < |fs| && d.phase.size == |fs[|d.frames|]|)
    && (d.chan.readBuf.Some? ==>
          && Partial(d.phase) + (d.chan.readBuf.value + ahead) == EncodeFrames(fs[|d.frames|..]) + tail
          && (!d.phase.Stopped? && Waiting(d) ==> |d.chan.readBuf.value| < Need(d.phase))
          && (d.phase.Stopped? ==> LimitReached(d)))
  }

  /** The stream from frame n on. */
  lemma NextFrame(fs: seq<Frame>, n: nat, tail: seq<byte>)
    requires n < |fs| && |fs[n]| < TWO32
    ensures EncodeFrames(fs[n..]) + tail == PutU32(|fs[n]|) + (fs[n] + (EncodeFrames(fs[n + 1..]) + tail))
  {
    var f, more := fs[n], EncodeFrames(fs[n + 1..]);
    assert fs[n..][1..] == fs[n + 1..];
    Regroup(PutU32(|f|), f, more);
    Regroup(PutU32(|f|) + f, more, tail);
    Regroup(PutU32(|f|), f, more + tail);
  }

  /** Splitting a prefix of known length off both sides of an equation. */
  lemma SplitFront(buf: seq<byte>, ahead: seq<byte>, front: seq<byte>, rest: seq<byte>)
    requires buf + ahead == front + rest && |buf| >= |front|
    ensures buf[..|front|] == front && buf[|front|..] + ahead == rest
  {
    assert (buf + ahead)[..|front|] == buf[..|front|];
    assert (buf + ahead)[|front|..] == buf[|front|..] + ahead;
  }

  predicate Ready(d: Codec, fs: seq<Frame>, tail: seq<byte>, ahead: seq<byte>) {
    && On(d, fs, tail, ahead) && FramesOk(fs, tail, d.readLimit)
    && !d.phase.Stopped? && !Waiting(d)
  }

  lemma AttemptPrefix(d: Codec, fs: seq<Frame>, tail: seq<byte>, ahead: seq<byte>)
    requires Ready(d, fs, tail, ahead) && d.phase.Prefix? && !LimitReached(d)
    requires d.chan.readBuf.Some? && |d.chan.readBuf.value| >= 4
    ensures On(Attempt(d), fs, tail, ahead)
  {
    var n, buf := |d.frames|, d.chan.readBuf.value;
    assert [] + (buf + ahead) == buf + ahead;
    assert fs[n..] != [];
    NextFrame(fs, n, tail);
    var rest := fs[n] + (EncodeFrames(fs[n + 1..]) + tail);
    SplitFront(buf, ahead, PutU32(|fs[n]|), rest);
    GetPut(|fs[n]|);
    assert buf[..4][..4] == buf[..4];
  }

  lemma AttemptBody(d: Codec, fs: seq<Frame>, tail: seq<byte>, ahead: seq<byte>)
    requires Ready(d, fs, tail, ahead) && d.phase.Body?
    requires d.chan.readBuf.Some? && |d.chan.readBuf.value| >= Need(d.phase)
    ensures On(Attempt(d), fs, tail, ahead)
  {
    var n, buf := |d.frames|, d.chan.readBuf.value;
    var f, rest := fs[n], EncodeFrames(fs[n + 1..]) + tail;
    NextFrame(fs, n, tail);
    assert buf + ahead == f + rest by {
      var p := PutU32(|f|);
      assert (p + (buf + ahead))[4..] == buf + ahead && (p + (f + rest))[4..] == f + rest;
    }
    SplitFront(buf, ahead, f, rest);
    assert f == [] ==> buf == [];
    assert TsChannel.TryRead(d.chan, |f|).answer == TsConn.Got(f);
    assert d.frames + [f] == fs[..n + 1];
    assert [] + (buf[|f|..] + ahead) == rest;
  }

  lemma AttemptKeeps(d: Codec, fs: seq<Frame>, tail: seq<byte>, ahead: seq<byte>)
    requires Ready(d, fs, tail, ahead)
    ensures On(Attempt(d), fs, tail, ahead)
  {
    if d.phase.Prefix? && LimitReached(d) {
    } else if d.chan.readBuf.Some? && |d.chan.readBuf.value| >= Need(d.phase) {
      if d.phase.Prefix? { AttemptPrefix(d, fs, tail, ahead); } else { AttemptBody(d, fs, tail, ahead); }
    }
  }

  /** A message the channel does not refuse. */
  predicate Taken(d: Codec, e: Event) {
    e.Receive? ==> |e.data| < TWO32 && TsChannel.HandleData(d.chan, |e.data|, e.data).Ok?
  }

  function Delivers(e: Event): seq<byte> {
    if e.Receive? then e.data else []
  }

  /** The channel with accepted data in its buffer, before a reader is woken. */
  function Buffered(d: Codec, data: seq<byte>): Codec
    requires d.chan.readBuf.Some? && |data| <= d.chan.myWindow
  {
    d.(chan := d.chan.(
         myWindow := d.chan.myWindow - |data|,
         readBuf := Some(d.chan.readBuf.value + data),
         readers := []))
  }

  lemma BufferedReady(d: Codec, data: seq<byte>, fs: seq<Frame>, tail: seq<byte>, ahead: seq<byte>)
    requires On(d, fs, tail, data + ahead) && FramesOk(fs, tail, d.readLimit)
    requires d.chan.readBuf.Some? && !d.phase.Stopped? && |data| <= d.chan.myWindow
    ensures Ready(Buffered(d, data), fs, tail, ahead)
  {
    Regroup(d.chan.readBuf.value, data, ahead);
  }

  lemma WokenStep(d: Codec, data: seq<byte>)
    requires CodecOk(d) && d.chan.readBuf.Some? && Waiting(d) && !(d.phase.Prefix? && LimitReached(d))
    requires Taken(d, Receive(data))
    ensures |data| <= d.chan.myWindow && Step(d, Receive(data)) == Attempt(Buffered(d, data))
  {
    assert |data| % TWO32 == |data|;
  }

  lemma ReceiveKeeps(d: Codec, data: seq<byte>, fs: seq<Frame>, tail: seq<byte>, ahead: seq<byte>)
    requires On(d, fs, tail, data + ahead) && FramesOk(fs, tail, d.readLimit) && Taken(d, Receive(data))
    ensures On(Step(d, Receive(data)), fs, tail, ahead)
  {
    hide FramesOk, EncodeFrames, Partial;
    if d.chan.readBuf.Some? {
      if Waiting(d) && !d.phase.Stopped? {
        WokenStep(d, data);
        BufferedReady(d, data, fs, tail, ahead);
        AttemptKeeps(Buffered(d, data), fs, tail, ahead);
      } else {
        Regroup(d.chan.readBuf.value, data, ahead);
      }
    }
  }

  lemma StepKeeps(d: Codec, e: Event, fs: seq<Frame>, tail: seq<byte>, ahead: seq<byte>)
    requires On(d, fs, tail, Delivers(e) + ahead) && FramesOk(fs, tail, d.readLimit) && Taken(d, e)
    ensures On(Step(d, e), fs, tail, ahead)
  {
    assert [] + ahead == ahead;
    match e
    case Receive(data) => ReceiveKeeps(d, data, fs, tail, ahead);
    case Resume => if !d.phase.Stopped? && !Waiting(d) { AttemptKeeps(d, fs, tail, ahead); }
    case _ =>
  }

  function Received(es: seq<Event>): seq<byte>
    decreases |es|
  {
    if es == [] then [] else Delivers(es[0]) + Received(es[1..])
  }

  predicate AllTaken(d: Codec, es: seq<Event>)
    requires CodecOk(d)
    decreases |es|
  {
    es == [] || (Taken(d, es[0]) && AllTaken(Step(d, es[0]), es[1..]))
  }

  lemma StepLimit(d: Codec, e: Event)
    requires CodecOk(d)
    ensures Step(d, e).readLimit == d.readLimit
  {
  }

  lemma {:induction false} RunKeeps(d: Codec, es: seq<Event>, fs: seq<Frame>, tail: seq<byte>, ahead: seq<byte>)
    requires On(d, fs, tail, Received(es) + ahead) && FramesOk(fs, tail, d.readLimit) && AllTaken(d, es)
    ensures On(Run(d, es), fs, tail, ahead) && Run(d, es).readLimit == d.readLimit
    decreases |es|
  {
    if es == [] {
      assert [] + ahead == ahead;
    } else {
      Regroup(Delivers(es[0]), Received(es[1..]), ahead);
      StepKeeps(d, es[0], fs, tail, Received(es[1..]) + ahead);
      StepLimit(d, es[0]);
      RunKeeps(Step(d, es[0]), es[1..], fs, tail, ahead);
    }
  }

  /**
   Frame delivery is ordered and bounded. Over any chunking of the data, any interleaving of reads and
   of calls of `decode`: the frames completed are the first of fs, the k-th call that has an answer has
   the k-th of them, and with a limit the loop completes no more frames and takes no byte beyond them,
   so that a hijacked stream keeps the rest.
   */
  lemma FramesInOrder(es: seq<Event>, fs: seq<Frame>, tail: seq<byte>, later: seq<byte>,
                      window: u32, packet: u32, readLimit: int)
    requires FramesOk(fs, tail, readLimit)
    requires AllTaken(Start(window, packet, readLimit), es) && Received(es) + later == EncodeFrames(fs) + tail
    ensures var d := Run(Start(window, packet, readLimit), es);
            && d.frames <= fs
            && (forall k | 0 <= k < |d.desk.resolved| :: k < |fs| && d.desk.resolved[k] == (k, fs[k]))
            && (d.desk.buf == [] || d.desk.waiters == [])
            && (readLimit > 0 ==> |d.frames| <= readLimit)
            && (readLimit > 0 && |d.frames| == readLimit && d.chan.readBuf.Some? ==>
                  d.chan.readBuf.value + later == EncodeFrames(fs[readLimit..]) + tail)
  {
    var d0 := Start(window, packet, readLimit);
    assert fs[0..] == fs;
    assert [] + ([] + (Received(es) + later)) == Received(es) + later;
    RunKeeps(d0, es, fs, tail, later);
    CallsInOrder(d0, es);
    var d := Run(d0, es);
    if d.chan.readBuf.Some? {
      assert [] + (d.chan.readBuf.value + later) == d.chan.readBuf.value + later;
    }
  }

  // ---------------------------------------------------------------- every frame is completed

  /** The loop cannot go on by itself. */
  predicate Idle(d: Codec) {
    d.phase.Stopped? || Waiting(d)
  }

  predicate NoReceive(es: seq<Event>) {
    forall e | e in es :: !e.Receive?
  }

  /** The peer's Eof, if there is one, is behind all the data. */
  predicate EofLast(es: seq<Event>)
    decreases |es|
  {
    es == [] || ((es[0].PeerEof? ==> NoReceive(es[1..])) && EofLast(es[1..]))
  }

  /** No frame that the loop reads is empty. */
  predicate NoEmptyFrame(fs: seq<Frame>, readLimit: int) {
    forall i | 0 <= i < |fs| && (readLimit <= 0 || i < readLimit) :: fs[i] != []
  }

  /** Once the channel has ended every frame is completed; after the peer's Eof no data is to come, and no
      frame that the loop reads is empty. */
  predicate Whole(d: Codec, fs: seq<Frame>, ahead: seq<byte>) {
    && (d.chan.readBuf.None? ==> d.frames == fs && !d.phase.Body?)
    && (d.chan.gotEOF ==> ahead == [] && NoEmptyFrame(fs, d.readLimit))
  }

  lemma EncodedNone(fs: seq<Frame>)
    ensures EncodeFrames(fs) == [] ==> fs == []
  {
  }

  /** Behind the prefix of a frame is the frame, so reading it does not end the channel. */
  lemma WholePrefix(d: Codec, fs: seq<Frame>, tail: seq<byte>, ahead: seq<byte>)
    requires Ready(d, fs, tail, ahead) && Whole(d, fs, ahead) && d.phase.Prefix? && !LimitReached(d)
    requires d.chan.readBuf.Some? && |d.chan.readBuf.value| >= 4
    ensures Whole(Attempt(d), fs, ahead)
  {
    var n, buf := |d.frames|, d.chan.readBuf.value;
    assert [] + (buf + ahead) == buf + ahead;
    assert fs[n..] != [];
    NextFrame(fs, n, tail);
    SplitFront(buf, ahead, PutU32(|fs[n]|), fs[n] + (EncodeFrames(fs[n + 1..]) + tail));
    assert buf[4..] + [] == buf[4..];
  }

  /** Only the last frame can be all that is buffered. */
  lemma WholeBody(d: Codec, fs: seq<Frame>, tail: seq<byte>, ahead: seq<byte>)
    requires Ready(d, fs, tail, ahead) && Whole(d, fs, ahead) && d.phase.Body?
    requires d.chan.readBuf.Some? && |d.chan.readBuf.value| >= Need(d.phase)
    ensures Whole(Attempt(d), fs, ahead)
  {
    var n, buf := |d.frames|, d.chan.readBuf.value;
    var f, rest := fs[n], EncodeFrames(fs[n + 1..]) + tail;
    NextFrame(fs, n, tail);
    assert buf + ahead == f + rest by {
      var p := PutU32(|f|);
      assert (p + (buf + ahead))[4..] == buf + ahead && (p + (f + rest))[4..] == f + rest;
    }
    SplitFront(buf, ahead, f, rest);
    assert TsChannel.TryRead(d.chan, |f|).answer == TsConn.Got(f);
    EncodedNone(fs[n + 1..]);
    assert d.frames + [f] == fs[..n + 1];
  }

  lemma WholeAttempt(d: Codec, fs: seq<Frame>, tail: seq<byte>, ahead: seq<byte>)
    requires Ready(d, fs, tail, ahead) && Whole(d, fs, ahead)
    ensures Whole(Attempt(d), fs, ahead)
  {
    if d.phase.Prefix? && LimitReached(d) {
    } else if d.chan.readBuf.Some? && |d.chan.readBuf.value| >= Need(d.phase) {
      if d.phase.Prefix? { WholePrefix(d, fs, tail, ahead); } else { WholeBody(d, fs, tail, ahead); }
    }
  }

  lemma WholeReceive(d: Codec, data: seq<byte>, fs: seq<Frame>, tail: seq<byte>, ahead: seq<byte>)
    requires On(d, fs, tail, data + ahead) && FramesOk(fs, tail, d.readLimit) && Taken(d, Receive(data))
    requires Whole(d, fs, data + ahead) && !d.chan.gotEOF
    ensures Whole(Step(d, Receive(data)), fs, ahead)
  {
    if d.chan.readBuf.Some? && Waiting(d) && !d.phase.Stopped? {
      WokenStep(d, data);
      BufferedReady(d, data, fs, tail, ahead);
      WholeAttempt(Buffered(d, data), fs, tail, ahead);
    }
  }

  lemma WholeStep(d: Codec, e: Event, fs: seq<Frame>, tail: seq<byte>, ahead: seq<byte>)
    requires On(d, fs, tail, Delivers(e) + ahead) && FramesOk(fs, tail, d.readLimit) && Taken(d, e)
    requires Whole(d, fs, Delivers(e) + ahead)
    requires e.Receive? ==> !d.chan.gotEOF
    requires e.PeerEof? ==> ahead == [] && NoEmptyFrame(fs, d.readLimit)
    ensures Whole(Step(d, e), fs, ahead)
  {
    assert [] + ahead == ahead;
    match e
    case Receive(data) => WholeReceive(d, data, fs, tail, ahead);
    case Resume => if !d.phase.Stopped? && !Waiting(d) { WholeAttempt(d, fs, tail, ahead); }
    case _ =>
  }

  lemma {:induction false} NothingReceived(es: seq<Event>)
    requires NoReceive(es)
    ensures Received(es) == []
    decreases |es|
  {
    if es != [] {
      assert es[0] in es && forall e | e in es[1..] :: e in es;
      NothingReceived(es[1..]);
    }
  }

  /** Only the peer's Eof makes a channel know of it. */
  lemma EofStep(d: Codec, e: Event)
    requires CodecOk(d)
    ensures Step(d, e).chan.gotEOF == (d.chan.gotEOF || e.PeerEof?)
  {
  }

  lemma {:induction false} WholeRun(d: Codec, es: seq<Event>, fs: seq<Frame>, tail: seq<byte>)
    requires On(d, fs, tail, Received(es)) && FramesOk(fs, tail, d.readLimit) && AllTaken(d, es)
    requires Whole(d, fs, Received(es)) && EofLast(es) && (d.chan.gotEOF ==> NoReceive(es))
    requires PeerEof in es ==> NoEmptyFrame(fs, d.readLimit)
    ensures On(Run(d, es), fs, tail, []) && Whole(Run(d, es), fs, []) && Run(d, es).readLimit == d.readLimit
    decreases |es|
  {
    assert Received([]) == [];
    if es != [] {
      var e, more := es[0], es[1..];
      assert e in es && forall x | x in more :: x in es;
      if e.PeerEof? { NothingReceived(more); }
      EofStep(d, e);
      hide On, Whole, Step, Taken, FramesOk, NoEmptyFrame;
      StepKeeps(d, e, fs, tail, Received(more));
      WholeStep(d, e, fs, tail, Received(more));
      StepLimit(d, e);
      WholeRun(Step(d, e), more, fs, tail);
    }
  }

  /** A loop that waits although all has arrived has nothing left to read. */
  lemma WaitingMeansDone(d: Codec, fs: seq<Frame>, tail: seq<byte>)
    requires On(d, fs, tail, []) && FramesOk(fs, tail, d.readLimit) && !d.phase.Stopped? && Waiting(d)
    requires d.chan.readBuf.Some?
    ensures d.frames == fs && (d.readLimit <= 0 || |fs| < d.readLimit)
  {
    if |d.frames| < |fs| {
      assert false;
    }
  }

  /** The frames that a loop with this limit is to complete. */
  function Due(fs: seq<Frame>, readLimit: int): seq<Frame> {
    if 0 < readLimit <= |fs| then fs[..readLimit] else fs
  }

  /**
   Frame delivery is complete. When every byte has arrived, with the peer's Eof behind them or without, and
   the loop has come to rest, it has completed every frame, or as many as its limit is. With an Eof this
   takes that no frame it reads is empty.
   */
  lemma IdleMeansDone(es: seq<Event>, fs: seq<Frame>, tail: seq<byte>, window: u32, packet: u32, readLimit: int)
    requires FramesOk(fs, tail, readLimit)
    requires AllTaken(Start(window, packet, readLimit), es) && Received(es) == EncodeFrames(fs) + tail
    requires EofLast(es) && (PeerEof in es ==> NoEmptyFrame(fs, readLimit))
    requires Idle(Run(Start(window, packet, readLimit), es))
    ensures Run(Start(window, packet, readLimit), es).frames == Due(fs, readLimit)
  {
    var d0 := Start(window, packet, readLimit);
    assert fs[0..] == fs;
    assert [] + ([] + Received(es)) == Received(es);
    WholeRun(d0, es, fs, tail);
    var d := Run(d0, es);
    hide Run, Received, EncodeFrames, AllTaken, FramesOk;
    if d.chan.readBuf.Some? && Waiting(d) && !d.phase.Stopped? {
      WaitingMeansDone(d, fs, tail);
    }
  }

  // ---------------------------------------------------------------- reads run out

  predicate ResumesOnly(es: seq<Event>) {
    forall e | e in es :: e == Resume
  }

  lemma {:induction false} ResumesBring(d: Codec, es: seq<Event>)
    requires CodecOk(d) && ResumesOnly(es)
    ensures Received(es) == [] && AllTaken(d, es) && EofLast(es) && NoReceive(es)
    decreases |es|
  {
    if es != [] {
      assert es[0] in es && forall e | e in es[1..] :: e in es;
      ResumesBring(Step(d, es[0]), es[1..]);
    }
  }

  function Buffer(d: Codec): nat {
    match d.chan.readBuf case None => 0 case Some(buf) => |buf|
  }

  /** A loop that is left to itself comes to rest: each read that is answered takes bytes from the buffer, ends
      a frame, or ends the loop. What it has completed stays. */
  lemma {:induction false} ReadsRunOut(d: Codec) returns (es: seq<Event>)
    requires CodecOk(d)
    ensures ResumesOnly(es) && Idle(Run(d, es)) && d.frames <= Run(d, es).frames
    decreases Buffer(d), if d.phase.Body? then 1 else 0
  {
    if Idle(d) {
      es := [];
    } else {
      var d' := Step(d, Resume);
      if Idle(d') {
        es := [Resume];
        assert Run(d, es) == Run(d', []);
      } else {
        var rest := ReadsRunOut(d');
        es := [Resume] + rest;
      }
    }
  }

  // ---------------------------------------------------------------- empty frames

  /** Two continuations read one frame, when the channel does not end over it. An empty frame with something
      behind it is completed as all that. */
  lemma ReadOne(d: Codec, f: Frame, tail: seq<byte>) returns (es: seq<Event>)
    requires CodecOk(d) && d.phase.Prefix? && !Waiting(d) && d.readLimit <= 0
    requires d.chan.gotEOF ==> f != [] && tail != []
    requires |f| < TWO32 && d.chan.readBuf == Some(EncodeFrame(f) + tail)
    ensures ResumesOnly(es)
    ensures var got := if f == [] then tail else f;
            Run(d, es) == d.(chan := d.chan.(readBuf := Some(if f == [] then [] else tail)),
                             frames := d.frames + [got], desk := Deliver(d.desk, got))
  {
    var p, buf := PutU32(|f|), EncodeFrame(f) + tail;
    Regroup(p, f, tail);
    SplitFront(buf, [], p, f + tail);
    assert buf + [] == buf;
    GetPut(|f|);
    var d1 := Step(d, Resume);
    assert buf[4..] == f + tail && buf[..4][..4] == p;
    assert d1 == d.(chan := d.chan.(readBuf := Some(f + tail)), phase := Body(|f|));
    assert (f + tail)[..|f|] == f && (f + tail)[|f|..] == tail;
    assert f == [] ==> f + tail == tail;
    es := [Resume, Resume];
    assert Run(d, es) == Run(d1, es[1..]) == Run(Step(d1, Resume), []);
  }

  lemma {:induction false} RunAppend(d: Codec, a: seq<Event>, b: seq<Event>)
    requires CodecOk(d)
    ensures Run(d, a + b) == Run(Run(d, a), b)
    ensures AllTaken(d, a + b) <==> AllTaken(d, a) && AllTaken(Run(d, a), b)
    decreases |a|
  {
    if a == [] {
      assert a + b == b;
    } else {
      assert (a + b)[0] == a[0] && (a + b)[1..] == a[1..] + b;
      RunAppend(Step(d, a[0]), a[1..], b);
    }
  }

  lemma {:induction false} ReceivedAppend(a: seq<Event>, b: seq<Event>)
    ensures Received(a + b) == Received(a) + Received(b)
    decreases |a|
  {
    if a == [] {
      assert a + b == b;
    } else {
      assert (a + b)[0] == a[0] && (a + b)[1..] == a[1..] + b;
      ReceivedAppend(a[1..], b);
      Regroup(Delivers(a[0]), Received(a[1..]), Received(b));
    }
  }

  /** Reading some frames and then some more. */
  lemma ReadsJoin(d: Codec, a: seq<Event>, b: seq<Event>)
    requires CodecOk(d) && ResumesOnly(a) && ResumesOnly(b)
    ensures ResumesOnly(a + b) && Run(d, a + b) == Run(Run(d, a), b)
  {
    RunAppend(d, a, b);
  }

  lemma Slices(fs: seq<Frame>, i: nat)
    requires 0 < i < |fs|
    ensures fs[1..][i - 1] == fs[i] && forall k | 0 <= k < i - 1 :: fs[1..][k] == fs[k + 1]
    ensures fs[1..][i..] == fs[i + 1..] && [fs[0]] + fs[1..][..i - 1] == fs[..i]
  {
  }

  /** The loop left to itself on a buffer whose frame i is empty, with others behind it: in place of the
      first such frame it completes all that follows. */
  lemma {:induction false} EmptyFrameSwallows(d: Codec, fs: seq<Frame>, i: nat) returns (es: seq<Event>)
    requires CodecOk(d) && d.phase.Prefix? && !Waiting(d) && d.readLimit <= 0 && !d.chan.gotEOF
    requires forall k | 0 <= k < |fs| :: |fs[k]| < TWO32
    requires i < |fs| - 1 && fs[i] == [] && forall k | 0 <= k < i :: fs[k] != []
    requires d.chan.readBuf == Some(EncodeFrames(fs))
    ensures ResumesOnly(es)
    ensures Run(d, es).frames == d.frames + fs[..i] + [EncodeFrames(fs[i + 1..])]
    decreases |fs|
  {
    var tail := EncodeFrames(fs[1..]);
    es := ReadOne(d, fs[0], tail);
    if i == 0 {
      assert d.frames + fs[..0] == d.frames;
    } else {
      var d' := Run(d, es);
      Slices(fs, i);
      var rest := EmptyFrameSwallows(d', fs[1..], i - 1);
      Slices(fs, i);
      hide CodecOk, Waiting, EncodeFrames, Run;
      Regroup(d.frames, [fs[0]], fs[1..][..i - 1]);
      ReadsJoin(d, es, rest);
      es := es + rest;
    }
  }

  /** The loop left to itself on a buffer that ends in an empty frame, behind which the Eof has come: reading
      the prefix of that frame ends the channel, and the frame is never completed. */
  lemma {:induction false} EofLosesFrame(d: Codec, fs: seq<Frame>) returns (es: seq<Event>)
    requires CodecOk(d) && d.phase.Prefix? && !Waiting(d) && d.readLimit <= 0 && d.chan.gotEOF
    requires forall k | 0 <= k < |fs| :: |fs[k]| < TWO32
    requires fs != [] && fs[|fs| - 1] == [] && forall k | 0 <= k < |fs| - 1 :: fs[k] != []
    requires d.chan.readBuf == Some(EncodeFrames(fs))
    ensures ResumesOnly(es) && Run(d, es).phase.Stopped?
    ensures Run(d, es).frames == d.frames + fs[..|fs| - 1]
    decreases |fs|
  {
    if |fs| == 1 {
      assert EncodeFrames(fs) == EncodeFrame([]) + EncodeFrames(fs[1..]);
      assert EncodeFrames(fs) == PutU32(0);
      GetPut(0);
      assert PutU32(0)[..4] == PutU32(0) && PutU32(0)[4..] == [];
      var d1 := Step(d, Resume);
      es := [Resume, Resume];
      assert Run(d, es) == Run(d1, es[1..]) == Run(Step(d1, Resume), []);
      assert d.frames + fs[..0] == d.frames;
    } else {
      var tail := EncodeFrames(fs[1..]);
      EncodedNone(fs[1..]);
      es := ReadOne(d, fs[0], tail);
      var rest := EofLosesFrame(Run(d, es), fs[1..]);
      assert [fs[0]] + fs[1..][..|fs| - 2] == fs[..|fs| - 1];
      Regroup(d.frames, [fs[0]], fs[1..][..|fs| - 2]);
      ReadsJoin(d, es, rest);
      es := es + rest;
    }
  }

  // ---------------------------------------------------------------- exactly when chunks do not matter

  function Fresh(): Codec {
    Start(TWO32 - 1, TWO32 - 1, -1)
  }

  /** A run that brings the whole encoding of fs, and behind it the peer's Eof if there may be one. */
  predicate Brings(es: seq<Event>, fs: seq<Frame>, eof: bool) {
    && AllTaken(Fresh(), es) && Received(es) == EncodeFrames(fs)
    && EofLast(es) && (!eof ==> PeerEof !in es)
  }

  predicate YieldsAll(es: seq<Event>, fs: seq<Frame>) {
    var d := Run(Fresh(), es);
    d.frames <= fs && (Idle(d) ==> d.frames == fs)
  }

  /** However the encoding of fs is cut and read, without a limit the loop completes nothing but the first
      frames of fs, and when it has come to rest, all of them. */
  ghost predicate Independent(fs: seq<Frame>, eof: bool) {
    forall es | Brings(es, fs, eof) :: YieldsAll(es, fs)
  }

  /** Framing is independent of the chunks exactly when no frame is empty, but for the last one if no Eof can
      come. */
  lemma IndependentIff(fs: seq<Frame>, eof: bool)
    requires |EncodeFrames(fs)| < TWO32 && forall i | 0 <= i < |fs| :: |fs[i]| < TWO32
    ensures Independent(fs, eof) <==> forall i | 0 <= i < |fs| && fs[i] == [] :: i == |fs| - 1 && !eof
  {
    if forall i | 0 <= i < |fs| && fs[i] == [] :: i == |fs| - 1 && !eof {
      assert FramesOk(fs, [], -1);
      forall es | Brings(es, fs, eof) ensures YieldsAll(es, fs) {
        assert Received(es) + [] == EncodeFrames(fs) + [];
        assert EncodeFrames(fs) + [] == EncodeFrames(fs);
        FramesInOrder(es, fs, [], [], TWO32 - 1, TWO32 - 1, -1);
        if Idle(Run(Fresh(), es)) { IdleMeansDone(es, fs, [], TWO32 - 1, TWO32 - 1, -1); }
      }
    } else {
      var i :| 0 <= i < |fs| && fs[i] == [] && !(i == |fs| - 1 && !eof);
      var k := FirstEmpty(fs, i);
      var es := Fails(fs, k, eof);
      assert Brings(es, fs, eof) && !YieldsAll(es, fs);
    }
  }

  lemma {:induction false} FirstEmpty(fs: seq<Frame>, i: nat) returns (k: nat)
    requires i < |fs| && fs[i] == []
    ensures k <= i && fs[k] == [] && forall j | 0 <= j < k :: fs[j] != []
  {
    if j: nat :| j < i && fs[j] == [] {
      k := FirstEmpty(fs, j);
    } else {
      k := i;
    }
  }

  /** All the data in one piece, the Eof behind it when the empty frame is the last, and the loop on its own. */
  lemma Fails(fs: seq<Frame>, k: nat, eof: bool) returns (es: seq<Event>)
    requires |EncodeFrames(fs)| < TWO32 && forall i | 0 <= i < |fs| :: |fs[i]| < TWO32
    requires k < |fs| && fs[k] == [] && (forall j | 0 <= j < k :: fs[j] != []) && (k < |fs| - 1 || eof)
    ensures Brings(es, fs, eof) && !YieldsAll(es, fs)
  {
    if k < |fs| - 1 {
      var all := [Receive(EncodeFrames(fs))];
      var d := Delivered(EncodeFrames(fs), all);
      var more := EmptyFrameSwallows(d, fs, k);
      assert d.frames + fs[..k] == fs[..k];
      SwallowedDiffers(fs, k);
      FailsBy(fs, eof, all, d, more);
      es := all + more;
    } else {
      var all := [Receive(EncodeFrames(fs)), PeerEof];
      var d := Delivered(EncodeFrames(fs), all);
      var more := EofLosesFrame(d, fs);
      assert d.frames + fs[..k] == fs[..k];
      FailsBy(fs, eof, all, d, more);
      es := all + more;
    }
  }

  lemma FailsBy(fs: seq<Frame>, eof: bool, all: seq<Event>, d: Codec, more: seq<Event>)
    requires AllTaken(Fresh(), all) && Received(all) == EncodeFrames(fs) && EofLast(all) && (!eof ==> PeerEof !in all)
    requires d == Run(Fresh(), all) && ResumesOnly(more)
    requires var end := Run(d, more); !(end.frames <= fs) || (Idle(end) && end.frames != fs)
    ensures Brings(all + more, fs, eof) && !YieldsAll(all + more, fs)
  {
    RunAppend(Fresh(), all, more);
    ReceivedAppend(all, more);
    ResumesBring(d, more);
    EofLastJoin(all, more);
    hide Run, AllTaken, Received, EncodeFrames, EofLast;
    assert EncodeFrames(fs) + [] == EncodeFrames(fs);
  }

  lemma SwallowedDiffers(fs: seq<Frame>, k: nat)
    requires k < |fs| - 1 && fs[k] == []
    ensures !(fs[..k] + [EncodeFrames(fs[k + 1..])] <= fs)
  {
    EncodedNone(fs[k + 1..]);
    var got := fs[..k] + [EncodeFrames(fs[k + 1..])];
    assert got[k] != fs[k];
  }

  lemma Delivered(bytes: seq<byte>, all: seq<Event>) returns (d: Codec)
    requires |bytes| < TWO32
    requires all == [Receive(bytes)] || all == [Receive(bytes), PeerEof]
    ensures AllTaken(Fresh(), all) && Received(all) == bytes && EofLast(all) && Run(Fresh(), all) == d
    ensures CodecOk(d) && d.phase.Prefix? && !Waiting(d) && d.readLimit <= 0 && d.frames == []
    ensures d.chan.readBuf == Some(bytes) && d.chan.gotEOF == (|all| == 2)
  {
    assert |bytes| % TWO32 == |bytes| && [] + bytes == bytes;
    var d1 := Step(Fresh(), all[0]);
    d := if |all| == 2 then Step(d1, PeerEof) else d1;
    if |all| == 2 {
      assert Run(Fresh(), all) == Run(d1, all[1..]) == Run(d, []);
      assert AllTaken(d1, all[1..]);
      assert Received(all[1..]) == [] + Received([]);
    } else {
      assert Run(Fresh(), all) == Run(d1, []);
      assert AllTaken(d1, []);
    }
    assert Received(all) == bytes + Received(all[1..]) == bytes + [];
  }

  lemma {:induction false} EofLastJoin(a: seq<Event>, b: seq<Event>)
    requires EofLast(a) && NoReceive(b) && EofLast(b)
    ensures EofLast(a + b)
    decreases |a|
  {
    if a == [] {
      assert a + b == b;
    } else {
      assert (a + b)[0] == a[0] && (a + b)[1..] == a[1..] + b;
      EofLastJoin(a[1..], b);
    }
  }
}
