/**
 Five runs that are not clean, and end a session. In the first a user writes after closing. In the others no
 user does. The peer closes, and an iteration of `Write` falls between the loop's reply to the peer's Close
 and the shutting of the channel; or it has reserved before the peer's Close is handled, and encodes after
 the shutting; or it has reserved before the user's own `CloseWrite`, and the peer closes politely. And a
 user closes an accepted channel before the loop has encoded the confirmation. In the last two a single turn
 is not polite. A sixth run is polite, and comes to a Close.
 */
module Races {
  import opened Wrappers
  import opened Wire
  import opened Endpoint
  import opened Network
  import opened Runs
  import Delivery
  import Graceful
  import Link
  import Trace

  const REQUEST := Open(0, CHANNEL_WINDOW_SIZE, CHANNEL_MAX_PACKET)
  const CONFIRMATION := OpenConfirm(0, 0, CHANNEL_WINDOW_SIZE, CHANNEL_MAX_PACKET)

  /** A step of `Write`. */
  predicate Writes(t: Turn) {
    t.action.Call? && (t.action.op.Write? || t.action.op.Encode?)
  }

  /** No user writes on a channel after closing it. */
  predicate UsersBehave(ts: seq<Turn>) {
    forall i, j | 0 <= i < j < |ts| && ts[i].action.Call? && ts[i].action.op.Close? ::
      !(ts[j].who == ts[i].who && Writes(ts[j]) && ts[j].action.u == ts[i].action.u)
  }

  /** A run that ends in state n, and can go on with any enabled turn. */
  ghost predicate Run(ts: seq<Turn>, n: Net) {
    Legal(ts) && After(ts) == n && Network.Ok(n)
  }

  /** A run of polite users. */
  predicate Nice(ts: seq<Turn>) {
    Legal(ts) && Graceful.Polite(ts)
  }

  lemma Goes(ts: seq<Turn>, n: Net, t: Turn) returns (n': Net)
    requires Run(ts, n) && MayTurn(n, t)
    ensures n' == Take(n, t) && Run(ts + [t], n')
    ensures Nice(ts) && Graceful.PoliteTurn(Seen(n, t.who), t.action) ==> Nice(ts + [t])
  {
    RunOk(ts);
    Extend(ts, t);
    RunOk(ts + [t]);
    n' := Take(n, t);
    assert Graceful.Polite(ts + [t]) <==> Graceful.PoliteExtended(ts, t) by {
      assert (ts + [t])[..|ts|] == ts;
    }
  }

  /** The channel of the left side, once it is confirmed, and of the right. */
  function LeftChan(): Chan {
    Handle(OutboundChan(0), CONFIRMATION).c
  }

  function RightChan(): Chan {
    InboundChan(REQUEST, 0)
  }

  /** A session with the one channel c. */
  function OneChan(c: Chan, loop: Loop): Sess {
    Sess([Some(0)], [c], None, loop)
  }

  /** The left user allocates a channel and sends the request. */
  lemma FirstTurns() returns (ts: seq<Turn>, n: Net)
    ensures ts == [Turn(Left, OpenCall), Turn(Left, Request(0))] && Run(ts, n)
    ensures n.l.s == OneChan(OutboundChan(0), Idle) && n.l.out == [Packet(REQUEST, 0)] && n.r == NEW_SIDE && Nice(ts)
  {
    hide Run;
    Begins();
    ts := [Turn(Left, OpenCall)];
    var a := Goes([], START, Turn(Left, OpenCall));
    NothingMore(ts);
    n := Goes(ts, a, Turn(Left, Request(0)));
    ts := ts + [Turn(Left, Request(0))];
  }

  lemma Begins()
    ensures Run([], START) && Nice([])
  {
    assert Legal([]) && After([]) == START;
  }

  /** A side with the one channel c, on which some chunks are reserved. */
  predicate Has(n: Side, c: Chan, loop: Loop, reserved: seq<seq<byte>>) {
    n.s == OneChan(c, loop) && |n.hist| == 1 && n.hist[0].reserved == reserved
  }

  /** The right loop queues the channel. */
  lemma QueueTurn(ts: seq<Turn>, n: Net) returns (n': Net)
    requires Run(ts, n) && n.l.out == [Packet(REQUEST, 0)] && n.r == NEW_SIDE
    ensures Run(ts + [Turn(Right, Receive)], n')
    ensures n'.l.s == n.l.s && n'.l.out == []
    ensures Has(n'.r, RightChan(), Confirming(0), []) && n'.r.out == []
    ensures Nice(ts) ==> Nice(ts + [Turn(Right, Receive)])
  {
    n' := Goes(ts, n, Turn(Right, Receive));
  }

  /** The right loop confirms the channel, which a user may have closed. */
  lemma ConfirmTurn(ts: seq<Turn>, n: Net, c: Chan) returns (n': Net)
    requires Run(ts, n) && Has(n.r, c, Confirming(0), []) && c == RightChan().(sentClose := c.sentClose)
    ensures Run(ts + [Turn(Right, Proceed)], n')
    ensures n'.l == n.l && Has(n'.r, c, Idle, []) && n'.r.out == n.r.out + [Packet(CONFIRMATION, 0)]
    ensures Nice(ts) ==> Nice(ts + [Turn(Right, Proceed)])
  {
    n' := Goes(ts, n, Turn(Right, Proceed));
  }

  lemma AnswerTurn(ts: seq<Turn>, n: Net) returns (n': Net)
    requires Run(ts, n) && n.l.s == OneChan(OutboundChan(0), Idle) && n.l.out == []
    requires Has(n.r, RightChan(), Idle, []) && n.r.out == [Packet(CONFIRMATION, 0)]
    ensures Run(ts + [Turn(Left, Receive)], n')
    ensures n'.l.s == OneChan(LeftChan(), Idle) && n'.l.out == []
    ensures Has(n'.r, RightChan(), Idle, []) && n'.r.out == []
    ensures Nice(ts) ==> Nice(ts + [Turn(Left, Receive)])
  {
    n' := Goes(ts, n, Turn(Left, Receive));
  }

  /** A channel that the left side has opened and the right side has queued. */
  lemma Queued() returns (ts: seq<Turn>, n: Net)
    ensures ts == [Turn(Left, OpenCall), Turn(Left, Request(0)), Turn(Right, Receive)] && Run(ts, n)
    ensures n.l.s == OneChan(OutboundChan(0), Idle) && n.l.out == []
    ensures Has(n.r, RightChan(), Confirming(0), []) && n.r.out == [] && Nice(ts)
  {
    hide Run, Nice;
    ts, n := FirstTurns();
    n := QueueTurn(ts, n);
    ts := ts + [Turn(Right, Receive)];
  }

  /** A channel that the left side has opened and both sides can use. */
  lemma Opened() returns (ts: seq<Turn>, n: Net)
    ensures ts == [Turn(Left, OpenCall), Turn(Left, Request(0)), Turn(Right, Receive), Turn(Right, Proceed),
                   Turn(Left, Receive)]
    ensures Run(ts, n)
    ensures n.l.s == OneChan(LeftChan(), Idle) && n.l.out == []
    ensures Has(n.r, RightChan(), Idle, []) && n.r.out == [] && Nice(ts)
  {
    hide Run, Nice;
    ts, n := Queued();
    n := ConfirmTurn(ts, n, RightChan());
    ts := ts + [Turn(Right, Proceed)];
    n := AnswerTurn(ts, n);
    ts := ts + [Turn(Left, Receive)];
  }

  /** The left user closes. */
  lemma CloseTurn(ts: seq<Turn>, n: Net, c: Chan) returns (n': Net)
    requires Run(ts, n) && n.l.s == OneChan(c, Idle) && n.l.out == []
    requires c.remoteId == 0 && !c.sentClose && Link.Usable(c)
    ensures Run(ts + [Turn(Left, Call(0, UserOp.Close))], n') && n'.r == n.r
    ensures n'.l.s == OneChan(c.(sentClose := true), Idle) && n'.l.out == [Packet(Message.Close(0), 0)]
    ensures Nice(ts) && c.sentEOF && c.pendingClosed ==> Nice(ts + [Turn(Left, Call(0, UserOp.Close))])
  {
    n' := Goes(ts, n, Turn(Left, Call(0, UserOp.Close)));
  }

  /** A side with the one channel c, and what is reserved on it as on another side. */
  predicate HasStill(n: Side, c: Chan, was: Side) {
    |was.hist| == 1 && Has(n, c, Idle, was.hist[0].reserved)
  }

  /** A user ends its writing. */
  lemma EofTurn(ts: seq<Turn>, n: Net, who: Who, c: Chan) returns (n': Net)
    requires Run(ts, n) && Mine(n, who).s == OneChan(c, Idle) && Mine(n, who).out == []
    requires c.remoteId == 0 && !c.sentClose && Link.Usable(c)
    ensures Run(ts + [Turn(who, Call(0, CloseWrite))], n') && Theirs(n', who) == Theirs(n, who)
    ensures HasStill(Mine(n', who), c.(sentEOF := true), Mine(n, who)) && Mine(n', who).out == [Packet(Eof(0), 0)]
    ensures Nice(ts) ==> Nice(ts + [Turn(who, Call(0, CloseWrite))])
  {
    Link.NoteOne(Link.Stepped(Mine(n, who).hist[0], c, CloseWrite), Apply(c, CloseWrite).out);
    n' := Goes(ts, n, Turn(who, Call(0, CloseWrite)));
  }

  /** The loop of the other side takes in the end of file. */
  lemma TakeEofTurn(ts: seq<Turn>, n: Net, who: Who, c: Chan) returns (n': Net)
    requires Run(ts, n) && Mine(n, who).s == OneChan(c, Idle) && c.localId == 0
    requires Theirs(n, who).out == [Packet(Eof(0), 0)]
    ensures Run(ts + [Turn(who, Receive)], n') && Theirs(n', who) == Theirs(n, who).(out := [])
    ensures HasStill(Mine(n', who), c.(pendingClosed := true), Mine(n, who)) && Mine(n', who).out == Mine(n, who).out
    ensures Nice(ts) ==> Nice(ts + [Turn(who, Receive)])
  {
    hide ReceiveStep;
    EofStep(Seen(n, who), c);
    n' := Goes(ts, n, Turn(who, Receive));
  }

  lemma EofStep(m: Net, c: Chan)
    requires Network.Ok(m) && m.l.s == OneChan(c, Idle) && c.localId == 0 && m.r.out == [Packet(Eof(0), 0)]
    ensures var m' := ReceiveStep(m);
            && m'.r == m.r.(out := []) && m'.l.out == m.l.out
            && HasStill(m'.l, c.(pendingClosed := true), m.l)
  {
    NothingMore(m.l.out);
    assert Tag([], 0) == [];
  }

  /** The right user closes, before the confirmation or after it. */
  lemma RightCloseTurn(ts: seq<Turn>, n: Net, loop: Loop) returns (n': Net)
    requires Run(ts, n) && Has(n.r, RightChan(), loop, []) && n.r.out == []
    ensures Run(ts + [Turn(Right, Call(0, UserOp.Close))], n') && n'.l == n.l
    ensures Has(n'.r, RightChan().(sentClose := true), loop, []) && n'.r.out == [Packet(Message.Close(0), 0)]
  {
    n' := Goes(ts, n, Turn(Right, Call(0, UserOp.Close)));
  }

  /** The right loop replies to the Close; its channel is neither freed nor shut yet. */
  lemma ReplyTurn(ts: seq<Turn>, n: Net, c: Chan, reserved: seq<seq<byte>>) returns (n': Net)
    requires Run(ts, n) && n.l.out == [Packet(Message.Close(0), 0)] && n.r.out == []
    requires Has(n.r, c, Idle, reserved) && c.remoteId == 0 && !c.sentClose
    ensures Run(ts + [Turn(Right, Receive)], n') && n'.l.s == n.l.s
    ensures Has(n'.r, c.(sentClose := true), Freeing(0), reserved) && n'.r.out == [Packet(Message.Close(0), 0)]
    ensures Nice(ts) ==> Nice(ts + [Turn(Right, Receive)])
  {
    Link.NoteOne(Link.NoteHandled(n.r.hist[0], Message.Close(0)), SendClose(c).out);
    n' := Goes(ts, n, Turn(Right, Receive));
  }

  /** The right loop frees its channel's slot, ... */
  lemma FreeTurn(ts: seq<Turn>, n: Net) returns (n': Net)
    requires Run(ts, n) && |n.r.s.heap| == 1 && n.r.s.loop == Freeing(0)
    ensures Run(ts + [Turn(Right, Proceed)], n') && n'.l == n.l && n'.r.out == n.r.out
    ensures n'.r.s.loop == Shutting(0) && n'.r.s.heap == n.r.s.heap && n'.r.hist == n.r.hist
  {
    n' := Goes(ts, n, Turn(Right, Proceed));
  }

  /** ... and shuts the channel. */
  lemma ShutTurn(ts: seq<Turn>, n: Net) returns (n': Net)
    requires Run(ts, n) && |n.r.s.heap| == 1 == |n.r.hist| && n.r.s.loop == Shutting(0)
    ensures Run(ts + [Turn(Right, Proceed)], n') && n'.l == n.l && n'.r.out == n.r.out
    ensures n'.r.s.heap == [Shut(n.r.s.heap[0])] && |n'.r.hist| == 1 && n'.r.hist[0].reserved == n.r.hist[0].reserved
  {
    n' := Goes(ts, n, Turn(Right, Proceed));
  }

  /** What the right user's `Write` takes of some data, the window being the initial one. */
  function Taken(data: seq<byte>): seq<byte> {
    data[..Chunk(RightChan(), data)]
  }

  /** The right user reserves: the window is open, and `sentClose` is not looked at. */
  lemma ReserveTurn(ts: seq<Turn>, n: Net, c: Chan, loop: Loop, data: seq<byte>) returns (n': Net)
    requires Run(ts, n) && 0 < |data| < TWO32
    requires Has(n.r, c, loop, []) && c == RightChan().(sentClose := c.sentClose)
    ensures Run(ts + [Turn(Right, Call(0, UserOp.Write(data)))], n') && n'.l == n.l && n'.r.out == n.r.out
    ensures Has(n'.r, ReserveChunk(c, data).c, loop, [Taken(data)])
    ensures Nice(ts) ==> Nice(ts + [Turn(Right, Call(0, UserOp.Write(data)))])
  {
    n' := Goes(ts, n, Turn(Right, Call(0, UserOp.Write(data))));
  }

  /** The right user encodes, wherever the loop has come meanwhile. */
  lemma EncodeTurn(ts: seq<Turn>, n: Net, chunk: seq<byte>) returns (n': Net)
    requires Run(ts, n) && |n.r.s.heap| == 1 && n.r.s.heap[0].direction.Inbound? && n.r.s.heap[0].remoteId == 0
    requires n.r.out == [Packet(Message.Close(0), 0)] && |n.r.hist| == 1 && n.r.hist[0].reserved == [chunk]
    ensures Run(ts + [Turn(Right, Call(0, Encode(0, chunk)))], n')
    ensures n'.l == n.l && Behind(n')
  {
    n' := Goes(ts, n, Turn(Right, Call(0, Encode(0, chunk))));
  }

  /** A message to channel 0 is behind a Close to it. */
  predicate Behind(n: Net) {
    && |n.r.out| == 2 && n.r.out[0] == Packet(Message.Close(0), 0)
    && !n.r.out[1].msg.Open? && n.r.out[1].msg.channelId == 0
  }

  lemma TakeInTurn(ts: seq<Turn>, n: Net, c: Chan) returns (n': Net)
    requires Run(ts, n) && n.l.s == OneChan(c, Idle) && c.localId == 0
    requires Behind(n)
    ensures Run(ts + [Turn(Left, Receive)], n') && n'.r.out == n.r.out[1..]
    ensures n'.l.s.loop == Freeing(0) && n'.l.s.table == [Some(0)] && n'.l.s.err.None?
    ensures |n'.l.s.heap| == 1 && n'.l.s.heap[0].localId == 0
  {
    n' := Goes(ts, n, Turn(Left, Receive));
  }

  /** The left loop handles the Close, in three turns, ... */
  lemma HandleTurns(ts: seq<Turn>, n: Net, c: Chan) returns (n': Net)
    requires Run(ts, n) && n.l.s == OneChan(c, Idle) && c.localId == 0
    requires Behind(n)
    ensures Run(ts + [Turn(Left, Receive), Turn(Left, Proceed), Turn(Left, Proceed)], n')
    ensures n'.l.s.table == [None] && n'.l.s.err.None? && n'.l.s.loop == Idle
    ensures n'.r.out == n.r.out[1..]
  {
    hide ReceiveStep;
    var a := TakeInTurn(ts, n, c);
    var b := Goes(ts + [Turn(Left, Receive)], a, Turn(Left, Proceed));
    assert b.l.s.loop == Shutting(0) && b.l.s.table == [None] && b.r == a.r && b.l.s.err.None?;
    n' := Goes(ts + [Turn(Left, Receive)] + [Turn(Left, Proceed)], b, Turn(Left, Proceed));
    assert ts + [Turn(Left, Receive)] + [Turn(Left, Proceed)] + [Turn(Left, Proceed)]
        == ts + [Turn(Left, Receive), Turn(Left, Proceed), Turn(Left, Proceed)];
  }

  /** ... and then the message behind it, for which it finds no channel. */
  lemma LostTurn(ts: seq<Turn>, n: Net) returns (n': Net)
    requires Run(ts, n) && n.l.s.table == [None] && n.l.s.err.None? && n.l.s.loop == Idle
    requires |n.r.out| == 1 && !n.r.out[0].msg.Open? && n.r.out[0].msg.channelId == 0
    ensures Run(ts + [Turn(Left, Receive)], n')
    ensures n'.l.s.err == Some(InvalidChannel(0))
  {
    n' := Goes(ts, n, Turn(Left, Receive));
  }

  /** Only a run that is not clean ends a session with an error of the protocol. */
  lemma NotClean(ts: seq<Turn>)
    requires Legal(ts) && After(ts).l.s.err == Some(InvalidChannel(0))
    ensures !Clean(ts)
  {
    if Clean(ts) { RunKeeps(ts); }
  }

  /** With a Close and another message behind it in flight, the left session ends. */
  lemma Ends(ts: seq<Turn>, n: Net, c: Chan) returns (es: seq<Turn>)
    requires Run(ts, n) && n.l.s == OneChan(c, Idle) && c.localId == 0
    requires Behind(n)
    ensures Delivery.LoopsOnly(es)
    ensures Legal(ts + es) && After(ts + es).l.s.err == Some(InvalidChannel(0)) && !Clean(ts + es)
  {
    var turns := [Turn(Left, Receive), Turn(Left, Proceed), Turn(Left, Proceed)];
    var a := HandleTurns(ts, n, c);
    var b := LostTurn(ts + turns, a);
    es := turns + [Turn(Left, Receive)];
    assert ts + es == ts + turns + [Turn(Left, Receive)];
    NotClean(ts + es);
  }

  /** Loops do not make users misbehave. */
  lemma LoopsBehave(ts: seq<Turn>, es: seq<Turn>)
    requires Delivery.LoopsOnly(es)
    ensures UsersBehave(ts) <==> UsersBehave(ts + es)
  {
    var all := ts + es;
    assert forall i | |ts| <= i < |all| :: all[i] in es;
    if UsersBehave(all) {
      assert forall i | 0 <= i < |ts| :: ts[i] == all[i];
    }
  }

  lemma Finish(first: seq<Turn>, n: Net, c: Chan) returns (ts: seq<Turn>)
    requires Run(first, n) && n.l.s == OneChan(c, Idle) && c.localId == 0 && Behind(n)
    ensures Legal(ts) && After(ts).l.s.err == Some(InvalidChannel(0)) && !Clean(ts)
    ensures UsersBehave(ts) <==> UsersBehave(first)
  {
    hide Run;
    var es := Ends(first, n, c);
    LoopsBehave(first, es);
    ts := first + es;
  }

  /** Writing after closing: the peer ends its session. */
  lemma WriteAfterClose(data: seq<byte>) returns (ts: seq<Turn>)
    requires 0 < |data| < TWO32
    ensures Legal(ts) && !UsersBehave(ts) && !Clean(ts)
    ensures After(ts).l.s.err == Some(InvalidChannel(0))
  {
    hide Run, Chunk;
    var first, n := Opened();
    n := RightCloseTurn(first, n, Idle);
    first := first + [Turn(Right, Call(0, UserOp.Close))];
    n := ReserveTurn(first, n, RightChan().(sentClose := true), Idle, data);
    first := first + [Turn(Right, Call(0, UserOp.Write(data)))];
    n := EncodeTurn(first, n, Taken(data));
    first := first + [Turn(Right, Call(0, Encode(0, Taken(data))))];
    assert first[5].action == Call(0, UserOp.Close) && first[6] == Turn(Right, Call(0, UserOp.Write(data)));
    ts := Finish(first, n, LeftChan());
  }

  /**
   No user writes after closing, and a session still ends: the left user closes, the right loop replies, and
   an iteration of the right user's `Write` comes before the loop has shut the channel.
   */
  lemma WriteAgainstReply(data: seq<byte>) returns (ts: seq<Turn>)
    requires 0 < |data| < TWO32
    ensures Legal(ts) && UsersBehave(ts) && !Clean(ts)
    ensures After(ts).l.s.err == Some(InvalidChannel(0))
  {
    hide Run, Chunk;
    var first, n := Opened();
    n := CloseTurn(first, n, LeftChan());
    first := first + [Turn(Left, Call(0, UserOp.Close))];
    n := ReplyTurn(first, n, RightChan(), []);
    first := first + [Turn(Right, Receive)];
    n := ReserveTurn(first, n, RightChan().(sentClose := true), Freeing(0), data);
    first := first + [Turn(Right, Call(0, UserOp.Write(data)))];
    n := EncodeTurn(first, n, Taken(data));
    first := first + [Turn(Right, Call(0, Encode(0, Taken(data))))];
    ts := Finish(first, n, LeftChan().(sentClose := true));
  }

  /** The right user has reserved, the left user has closed, and the right loop has shut the channel. */
  lemma ReservedThenShut(data: seq<byte>) returns (ts: seq<Turn>, n: Net)
    requires 0 < |data| < TWO32
    ensures Run(ts, n) && UsersBehave(ts + [Turn(Right, Call(0, Encode(0, Taken(data))))])
    ensures n.l.s == OneChan(LeftChan().(sentClose := true), Idle)
    ensures |n.r.s.heap| == 1 && n.r.s.heap[0].direction.Inbound? && n.r.s.heap[0].remoteId == 0
    ensures n.r.out == [Packet(Message.Close(0), 0)] && |n.r.hist| == 1 && n.r.hist[0].reserved == [Taken(data)]
  {
    var c := ReserveChunk(RightChan(), data).c;
    assert c.remoteId == 0 && c.direction.Inbound? && !c.sentClose;
    hide Run, LeftChan, RightChan, ReserveChunk, Taken;
    ts, n := Opened();
    n := ReserveTurn(ts, n, RightChan(), Idle, data);
    ts := ts + [Turn(Right, Call(0, UserOp.Write(data)))];
    n := CloseTurn(ts, n, LeftChan());
    ts := ts + [Turn(Left, Call(0, UserOp.Close))];
    n := ReplyTurn(ts, n, c, [Taken(data)]);
    ts := ts + [Turn(Right, Receive)];
    n := FreeTurn(ts, n);
    ts := ts + [Turn(Right, Proceed)];
    n := ShutTurn(ts, n);
    ts := ts + [Turn(Right, Proceed)];
  }

  /** The same when the iteration has reserved before the Close is handled, and encodes when the channel is
      already shut. */
  lemma ReserveAgainstClose(data: seq<byte>) returns (ts: seq<Turn>)
    requires 0 < |data| < TWO32
    ensures Legal(ts) && UsersBehave(ts) && !Clean(ts)
    ensures After(ts).l.s.err == Some(InvalidChannel(0))
  {
    var first, n := ReservedThenShut(data);
    assert LeftChan().localId == 0;
    hide Run, UsersBehave, LeftChan, Taken;
    n := EncodeTurn(first, n, Taken(data));
    ts := Finish(first + [Turn(Right, Call(0, Encode(0, Taken(data))))], n, LeftChan().(sentClose := true));
  }

  /** A user closes an accepted channel before the loop has encoded its confirmation: the confirmation finds no
      channel. That Close is the only turn that is not polite. */
  lemma CloseBeforeConfirmation() returns (first: seq<Turn>, es: seq<Turn>)
    ensures Legal(first) && Graceful.Polite(first) && Delivery.LoopsOnly(es)
    ensures var ts := first + [Turn(Right, Call(0, UserOp.Close))] + es;
            && Legal(ts) && UsersBehave(ts) && !Clean(ts)
            && After(ts).l.s.err == Some(InvalidChannel(0))
  {
    hide Run;
    var n;
    first, n := Queued();
    n := RightCloseTurn(first, n, Confirming(0));
    var closed := first + [Turn(Right, Call(0, UserOp.Close))];
    n := ConfirmTurn(closed, n, RightChan().(sentClose := true));
    var rest := Ends(closed + [Turn(Right, Proceed)], n, OutboundChan(0));
    es := [Turn(Right, Proceed)] + rest;
    Regroup(closed, [Turn(Right, Proceed)], rest);
    LoopsBehave(closed, es);
  }

  /** Both users end their writing, though the right one has still to encode what it has reserved. */
  lemma BothEnd(data: seq<byte>) returns (ts: seq<Turn>, n: Net)
    requires 0 < |data| < TWO32
    ensures Run(ts, n) && Nice(ts) && n.l.out == [] && n.r.out == []
    ensures n.l.s == OneChan(LeftChan().(sentEOF := true, pendingClosed := true), Idle)
    ensures Has(n.r, ReserveChunk(RightChan(), data).c.(sentEOF := true, pendingClosed := true), Idle, [Taken(data)])
  {
    var c, d := ReserveChunk(RightChan(), data).c, LeftChan();
    assert c.remoteId == 0 == c.localId && c.direction.Inbound? && !c.sentClose;
    assert d.remoteId == 0 == d.localId && Link.Usable(d) && !d.sentClose;
    ts, n := Opened();
    hide Run, Nice, LeftChan, RightChan, ReserveChunk, Taken;
    n := ReserveTurn(ts, n, RightChan(), Idle, data);
    ts := ts + [Turn(Right, Call(0, UserOp.Write(data)))];
    n := EofTurn(ts, n, Right, c);
    ts := ts + [Turn(Right, Call(0, CloseWrite))];
    n := TakeEofTurn(ts, n, Left, d);
    ts := ts + [Turn(Left, Receive)];
    n := EofTurn(ts, n, Left, d.(pendingClosed := true));
    ts := ts + [Turn(Left, Call(0, CloseWrite))];
    n := TakeEofTurn(ts, n, Right, c.(sentEOF := true));
    ts := ts + [Turn(Right, Receive)];
  }

  /** Then the left one closes. */
  lemma PoliteClose(data: seq<byte>) returns (ts: seq<Turn>, n: Net)
    requires 0 < |data| < TWO32
    ensures Run(ts, n) && Nice(ts) && n.r.out == [] && n.l.out == [Packet(Message.Close(0), 0)]
    ensures n.l.s == OneChan(LeftChan().(sentEOF := true, pendingClosed := true, sentClose := true), Idle)
    ensures Has(n.r, ReserveChunk(RightChan(), data).c.(sentEOF := true, pendingClosed := true), Idle, [Taken(data)])
  {
    var d := LeftChan();
    assert d.remoteId == 0 && Link.Usable(d) && !d.sentClose;
    hide Run, Nice, LeftChan, RightChan, ReserveChunk, Taken;
    ts, n := BothEnd(data);
    n := CloseTurn(ts, n, d.(sentEOF := true, pendingClosed := true));
    ts := ts + [Turn(Left, Call(0, UserOp.Close))];
  }

  /** A chunk that is reserved before the user's `CloseWrite` and encoded after the peer's Close was answered: its
      encoding is the only turn that is not polite. */
  lemma WriteDuringCloseWrite(data: seq<byte>) returns (first: seq<Turn>, es: seq<Turn>)
    requires 0 < |data| < TWO32
    ensures Legal(first) && Graceful.Polite(first) && Delivery.LoopsOnly(es)
    ensures var ts := first + [Turn(Right, Call(0, Encode(0, Taken(data))))] + es;
            Legal(ts) && !Clean(ts) && After(ts).l.s.err == Some(InvalidChannel(0))
  {
    hide Run, Taken;
    var n;
    first, n := PoliteClose(data);
    n := ReplyTurn(first, n, ReserveChunk(RightChan(), data).c.(sentEOF := true, pendingClosed := true), [Taken(data)]);
    first := first + [Turn(Right, Receive)];
    n := EncodeTurn(first, n, Taken(data));
    es := Ends(first + [Turn(Right, Call(0, Encode(0, Taken(data))))], n, n.l.s.heap[0]);
  }

  /** Polite users can come to a Close. */
  lemma PoliteCanClose(data: seq<byte>) returns (ts: seq<Turn>)
    requires 0 < |data| < TWO32
    ensures Legal(ts) && Graceful.Polite(ts) && Link.Total(Trace.SentOn(ts, Left, 0)).closes > 0
  {
    var n;
    ts, n := PoliteClose(data);
    Trace.HistoryIsFaithful(ts, Left, 0);
  }
}
