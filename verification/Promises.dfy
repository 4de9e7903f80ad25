/** What a user and a peer can rely on over whole runs, in terms of the calls and the wires alone. */
module Promises {
  import opened Wrappers
  import opened Wire
  import opened Endpoint
  import opened Network
  import opened Runs
  import opened Trace
  import Link

  // ---------------------------------------------------------------- pipes

  /**
   Multiplexing refines independent pipes, over whole runs: what all the calls of `Read` have returned
   on a channel is a prefix of what all the calls of `Write` have put on the wire on its peer, and the rest
   is, in order, in the buffer and in flight.
   */
  lemma RunsArePipes(ts: seq<Turn>, who: Who, u: nat)
    requires Legal(ts) && Clean(ts)
    requires u < |Mine(After(ts), who).s.heap| && Peer(After(ts), who, u).Some?
    ensures var n := After(ts);
            var e, f, v := Mine(n, who), Theirs(n, who), Peer(n, who, u).value;
            var read, written := PastOf(ts, Other(who), v).returned, PastOf(ts, who, u).written;
            && v < |f.s.heap|
            && read <= written
            && read + f.s.heap[v].pending + Link.Total(Stream(e.out, u)).data == written
  {
    var n := After(ts);
    assert Reachable(n);
    PipesAreFifo(n, who, u);
    HistoryIsFaithful(ts, who, u);
    HistoryIsFaithful(ts, Other(who), Peer(n, who, u).value);
  }

  /**
   A graceful end of file is complete, over whole runs: when `Read` reports io.EOF and the session still runs,
   the peer has put an Eof or a Close on the wire, and the calls of `Read` have returned all the data it
   had put there before, and nothing it has not put there.
   */
  lemma EofIsComplete(ts: seq<Turn>, who: Who, u: nat, len: nat)
    requires Legal(ts) && Clean(ts) && u < |Mine(After(ts), who).s.heap|
    requires Link.Usable(Mine(After(ts), who).s.heap[u]) && Mine(After(ts), who).s.err.None?
    requires ReadSome(Mine(After(ts), who).s.heap[u], len).eof
    ensures Peer(After(ts), who, u).Some?
    ensures var sent := Link.Total(SentOn(ts, Other(who), Peer(After(ts), who, u).value));
            sent.marked && sent.before <= PastOf(ts, who, u).returned <= sent.data
  {
    var n := After(ts);
    assert Reachable(n);
    GracefulEof(n, who, u, len);
    HistoryIsFaithful(ts, who, u);
    HistoryIsFaithful(ts, Other(who), Peer(n, who, u).value);
  }

  // ---------------------------------------------------------------- closing

  /**
   Over a whole run a channel puts at most one Close on the wire and is shut at most once, and while the
   session runs it leaves the table, and is shut, only after it has both put a Close on the wire and been
   handed one.
   */
  lemma ClosesOnce(ts: seq<Turn>, who: Who, u: nat)
    requires Legal(ts) && Clean(ts) && u < |Mine(After(ts), who).s.heap|
    ensures var e := Mine(After(ts), who);
            var sent, handed := Link.Total(SentOn(ts, who, u)), Link.Total(PastOf(ts, who, u).handed);
            && sent.closes <= 1 && PastOf(ts, who, u).shuts <= 1
            && (e.s.err.None? && (!Live(e.s, u) || PastOf(ts, who, u).shuts == 1) ==>
                  sent.closes == 1 && handed.closes > 0)
  {
    assert Reachable(After(ts));
    CloseHandshake(After(ts), who, u);
    HistoryIsFaithful(ts, who, u);
  }

  /** The steps that put something of channel u on the wire without a look at `sentClose`: the encoding of a
      chunk, the confirmation, and the request. */
  predicate Blind(n: Net, a: Action, u: nat) {
    || (a.Call? && a.u == u && a.op.Encode?)
    || (a.Proceed? && n.l.s.loop == Confirming(u))
    || (a.Request? && a.u == u)
  }

  /** Such a step when the Close of the channel is on the wire. */
  predicate StaleOn(n: Net, a: Action, u: nat) {
    Blind(n, a, u) && u < |n.l.hist| && n.l.hist[u].closes > 0
  }

  /** What a turn of the left side puts on the wire for channel u is empty, or one message. */
  lemma EmitsOne(n: Net, a: Action, u: nat)
    requires Network.Ok(n) && Enabled(n, a)
    ensures |Stream(Emits(n, a), u)| <= 1
  {
    match a
    case OpenCall =>
    case Request(w) => StreamOfTag([OpenRequest(n.l.s.heap[w])], w, u);
    case Call(w, op) => StreamOfTag(Apply(n.l.s.heap[w], op).out, w, u);
    case Receive =>
      var m := n.r.out[0].msg;
      if !m.Open? && Target(n.l.s, m) < |n.l.s.heap| { HandleShape(n.l.s.heap[Target(n.l.s, m)], m); }
      StreamOfTag(LoopStep(n.l.s, m).out, Target(n.l.s, m), u);
    case Proceed => StreamOfTag(Endpoint.Proceed(n.l.s).out, n.l.s.loop.u, u);
    case Fail =>
  }

  /**
   After Close there is silence, but for the blind steps: once a channel has sent Close, a turn of its side
   puts something more of it on the wire if and only if it encodes a chunk that was reserved, the channel's
   confirmation or its request.
   */
  lemma SilentAfterClose(n: Net, a: Action, u: nat)
    requires Network.Ok(n) && Enabled(n, a) && u < |n.l.s.heap| && n.l.s.heap[u].sentClose
    ensures var ms := Stream(Emits(n, a), u);
            && (ms != [] <==> Blind(n, a, u))
            && (Blind(n, a, u) ==>
                  && |ms| == 1
                  && (if a.Call? then ms[0].Data? else if a.Proceed? then ms[0].OpenConfirm? else ms[0].Open?))
  {
    match a
    case OpenCall =>
    case Request(w) => StreamOfTag([OpenRequest(n.l.s.heap[w])], w, u);
    case Call(w, op) =>
      StreamOfTag(Apply(n.l.s.heap[w], op).out, w, u);
      if w == u { SilentCall(n.l.s.heap[u], op); }
    case Receive =>
      var m := n.r.out[0].msg;
      var w := Target(n.l.s, m);
      if !m.Open? && w < |n.l.s.heap| { HandleFlags(n.l.s.heap[w], m); }
      StreamOfTag(LoopStep(n.l.s, m).out, w, u);
    case Proceed => StreamOfTag(Endpoint.Proceed(n.l.s).out, n.l.s.loop.u, u);
    case Fail =>
  }

  lemma SilentCall(c: Chan, op: UserOp)
    requires c.sentClose
    ensures |Apply(c, op).out| <= 1 && (Apply(c, op).out != [] <==> op.Encode?)
    ensures op.Encode? ==> Apply(c, op).out[0].Data?
  {
  }

  /** Whether the run has a stale step on a channel. */
  predicate SomeStale(ts: seq<Turn>, who: Who, u: nat)
    requires Legal(ts)
    decreases |ts|
  {
    ts != [] &&
    var before, t := ts[..|ts| - 1], ts[|ts| - 1];
    assert MayFollow(before, t);
    SomeStale(before, who, u) || (t.who == who && StaleOn(Seen(After(before), who), t.action, u))
  }

  /** Nothing is behind a Close. */
  predicate CloseIsLast(q: seq<Message>) {
    forall k | 0 <= k < |q| - 1 :: !q[k].Close?
  }

  lemma CloseIsLastStep(q: seq<Message>, ms: seq<Message>)
    requires |ms| <= 1
    ensures CloseIsLast(q + ms) <==> CloseIsLast(q) && (ms == [] || Link.Total(q).closes == 0)
  {
    Link.NoCloseInside(q);
    CloseInside(q);
    if ms == [] {
      assert q + ms == q;
    } else {
      var q' := q + ms;
      assert forall k | 0 <= k < |q| :: q'[k] == q[k] && q[k] in q;
    }
  }

  lemma {:induction false} CloseInside(q: seq<Message>)
    ensures Link.Total(q).closes > 0 ==> exists k :: 0 <= k < |q| && q[k].Close?
  {
    if q != [] && !q[0].Close? && Link.Total(q).closes > 0 {
      CloseInside(q[1..]);
      var k :| 0 <= k < |q[1..]| && q[1..][k].Close?;
      assert q[k + 1].Close?;
    } else if q != [] {
      assert q[0] == q[0];
    }
  }

  /**
   The promise that nothing follows a Close, over all that a channel has ever put on the wire: it is kept if
   and only if neither a chunk of the channel, nor its confirmation, nor its request was encoded after its
   Close went out, be it sent by a user or by the loop in reply to the peer's.
   */
  lemma {:induction false} CloseIsLastIff(ts: seq<Turn>, who: Who, u: nat)
    requires Legal(ts)
    ensures CloseIsLast(SentOn(ts, who, u)) <==> !SomeStale(ts, who, u)
    decreases |ts|
  {
    if ts != [] {
      var before, t := ts[..|ts| - 1], ts[|ts| - 1];
      Unroll(ts, who, u);
      CloseIsLastIff(before, who, u);
      if t.who == who {
        CloseStep(before, t.action, who, u);
      }
    }
  }

  lemma CloseStep(ts: seq<Turn>, a: Action, who: Who, u: nat)
    requires MayFollow(ts, Turn(who, a))
    ensures var q, n := SentOn(ts, who, u), Seen(After(ts), who);
            CloseIsLast(q + Stream(Emits(n, a), u)) <==> CloseIsLast(q) && !StaleOn(n, a, u)
  {
    var q, n := SentOn(ts, who, u), Seen(After(ts), who);
    HistoryIsFaithful(ts, who, u);
    EmitsOne(n, a, u);
    CloseIsLastStep(q, Stream(Emits(n, a), u));
    if u < |n.l.s.heap| && n.l.s.heap[u].sentClose {
      SilentAfterClose(n, a, u);
    }
  }

  /** In a clean run nothing follows a Close, as long as the session at the other side runs. */
  lemma NothingAfterClose(ts: seq<Turn>, who: Who, u: nat)
    requires Legal(ts) && Clean(ts) && Theirs(After(ts), who).s.err.None?
    ensures CloseIsLast(SentOn(ts, who, u))
  {
    CleanIsStaleFree(ts, who, u);
    CloseIsLastIff(ts, who, u);
  }

  /** A clean run has stale steps only on channels whose peer's session has ended. */
  lemma {:induction false} CleanIsStaleFree(ts: seq<Turn>, who: Who, u: nat)
    requires Legal(ts) && Clean(ts) && Theirs(After(ts), who).s.err.None?
    ensures !SomeStale(ts, who, u)
    decreases |ts|
  {
    if ts != [] {
      var before, t := ts[..|ts| - 1], ts[|ts| - 1];
      Unfold(ts);
      RunOk(before);
      StaysEnded(After(before), t, who);
      CleanIsStaleFree(before, who, u);
      RunKeeps(before);
      var n := Seen(After(before), who);
      if t.who == who && StaleOn(n, t.action, u) { StaleIsStale(n, t.action, u); }
    }
  }

  /** The confirmation of a clean run is never stale, and a stale chunk is what no clean run encodes. */
  lemma StaleIsStale(n: Net, a: Action, u: nat)
    requires Inv(n) && Enabled(n, a) && n.r.s.err.None? && StaleOn(n, a, u)
    ensures Stale(n, a)
  {
    if a.Proceed? { ConfirmIsFirst(n, u); }
    if a.Request? { RequestIsFirst(n, u); }
  }

  lemma RequestIsFirst(n: Net, u: nat)
    requires Inv(n) && Enabled(n, Request(u))
    ensures n.l.hist[u].closes == 0
  {
    assert ChannelOk(n.l, n.r, u);
  }

  lemma ConfirmIsFirst(n: Net, u: nat)
    requires Inv(n) && n.l.s.loop == Confirming(u) && n.r.s.err.None?
    ensures u < |n.l.hist| && n.l.hist[u].closes == 0
  {
    LoopPaired(n, u);
    assert View(n.l, u).confirming;
  }

  lemma StaysEnded(n: Net, t: Turn, who: Who)
    requires Network.Ok(n) && MayTurn(n, t)
    ensures Theirs(n, who).s.err.Some? ==> Theirs(Take(n, t), who).s.err.Some?
  {
  }

  // ---------------------------------------------------------------- the byte stream

  function Messages(ps: seq<Packet>): seq<Message> {
    seq(|ps|, k requires 0 <= k < |ps| => ps[k].msg)
  }

  lemma MessagesJoin(a: seq<Packet>, b: seq<Packet>)
    ensures Messages(a + b) == Messages(a) + Messages(b)
  {
  }

  /** No data message without data. */
  predicate NoEmptyData(ms: seq<Message>) {
    forall m | m in ms && m.Data? :: m.data != []
  }

  /** Every message a turn puts on the wire carries a true length. */
  lemma EmitsWellFormed(n: Net, a: Action)
    requires Network.Ok(n) && Enabled(n, a)
    requires a.Call? && a.op.Encode? ==> |a.op.chunk| < TWO32
    ensures AllWellFormed(Messages(Emits(n, a)))
  {
    match a
    case Receive => RepliesWellFormed(n);
    case _ =>
  }

  lemma RepliesWellFormed(n: Net)
    requires Network.Ok(n) && Enabled(n, Receive)
    ensures AllWellFormed(Messages(Emits(n, Receive)))
  {
    hide Network.Ok;
    var m := n.r.out[0].msg;
    if !m.Open? && Target(n.l.s, m) < |n.l.s.heap| { HandleFlags(n.l.s.heap[Target(n.l.s, m)], m); }
  }

  /**
   What a side has ever put on its wire, in any run, survives the wire: the encodings of all the messages one
   after the other, followed by anything, decode to exactly these messages.
   */
  lemma {:induction false} WireIsReadable(ts: seq<Turn>, who: Who, rest: seq<byte>)
    requires Legal(ts)
    ensures var ms := Messages(OnWire(ts, who));
            DecodeMany(EncodeAll(ms) + rest, |ms|) == Ok((ms, rest))
  {
    AllReadable(ts, who);
    DecodeManyEncodeAll(Messages(OnWire(ts, who)), rest);
  }

  /** No iteration of `Write` reserves 2^32 bytes. */
  lemma {:induction false} TakenShort(ts: seq<Turn>, who: Who, u: nat)
    requires Legal(ts)
    ensures forall chunk | chunk in PastOf(ts, who, u).taken :: |chunk| < TWO32
    decreases |ts|
  {
    if ts != [] {
      Unroll(ts, who, u);
      TakenShort(ts[..|ts| - 1], who, u);
    }
  }

  /** What is encoded was reserved. */
  lemma EncodesTaken(ts: seq<Turn>, who: Who, u: nat, op: UserOp)
    requires MayFollow(ts, Turn(who, Call(u, op))) && op.Encode?
    ensures op.chunk in PastOf(ts, who, u).taken
  {
    HistoryIsFaithful(ts, who, u);
  }

  lemma {:induction false} AllReadable(ts: seq<Turn>, who: Who)
    requires Legal(ts)
    ensures AllWellFormed(Messages(OnWire(ts, who)))
    decreases |ts|
  {
    if ts != [] {
      var before, t := ts[..|ts| - 1], ts[|ts| - 1];
      Unroll(ts, who, 0);
      AllReadable(before, who);
      if t.who == who {
        if t.action.Call? && t.action.op.Encode? {
          EncodesTaken(before, who, t.action.u, t.action.op);
          TakenShort(before, who, t.action.u);
        }
        EmitsWellFormed(Seen(After(before), who), t.action);
        MessagesJoin(OnWire(before, who), Emits(Seen(After(before), who), t.action));
      }
    }
  }

  /** out is the end of wire. */
  predicate IsEnd(out: seq<Packet>, wire: seq<Packet>) {
    |out| <= |wire| && wire[|wire| - |out|..] == out
  }

  lemma IsEndSteps(out: seq<Packet>, wire: seq<Packet>, more: seq<Packet>)
    requires IsEnd(out, wire)
    ensures IsEnd(out + more, wire + more) && (out != [] ==> IsEnd(out[1..], wire))
  {
    var k := |wire| - |out|;
    assert (wire + more)[k..] == wire[k..] + more;
    if out != [] { assert wire[k..][1..] == wire[k + 1..]; }
  }

  /** What is in flight is the end of all that was put on the wire. */
  lemma {:induction false} InFlightIsTheEnd(ts: seq<Turn>, who: Who)
    requires Legal(ts)
    ensures IsEnd(Mine(After(ts), who).out, OnWire(ts, who))
    decreases |ts|
  {
    if ts != [] {
      var before, t := ts[..|ts| - 1], ts[|ts| - 1];
      Unroll(ts, who, 0);
      Unfold(ts);
      InFlightIsTheEnd(before, who);
      RunOk(before);
      TurnOk(After(before), t);
      var n := Seen(After(before), t.who);
      Wires(n, t.action);
      IsEndSteps(Mine(After(before), who).out, OnWire(before, who), Emits(n, t.action));
      hide IsEnd, Next, Emits, Enabled;
    }
  }

  /** What a turn does to the two wires. */
  lemma Wires(n: Net, a: Action)
    requires Network.Ok(n) && Enabled(n, a) && Network.Ok(Next(n, a))
    ensures Next(n, a).l.out == n.l.out + Emits(n, a)
    ensures Next(n, a).r.out == if a.Receive? then n.r.out[1..] else n.r.out
  {
    hide Emits, Aside;
    TurnWires(n, a);
  }

  /** No call of `Write` is for 2^32 bytes or more. */
  predicate ShortWrites(ts: seq<Turn>) {
    forall t | t in ts && t.action.Call? && t.action.op.Write? :: |t.action.op.data| < TWO32
  }

  /** A writer of a clean run reserves at least one byte. */
  lemma ChunkIsNotEmpty(n: Net, u: nat, op: UserOp)
    requires Inv(n) && Enabled(n, Call(u, op)) && op.Write? && |op.data| < TWO32
    ensures n.l.s.heap[u].winClosed || Chunk(n.l.s.heap[u], op.data) > 0
  {
    assert ChannelOk(n.l, n.r, u);
    var v := n.l.hist[u].peer.value;
    Link.Identified(View(n.l, u), View(n.r, v), Stream(n.l.out, u), Stream(n.r.out, v),
                    n.l.s.heap[u].direction.Outbound?);
    hide Inv, ChannelOk, Joined;
  }

  lemma {:induction false} TakenNotEmpty(ts: seq<Turn>, who: Who, u: nat)
    requires Legal(ts) && Clean(ts) && ShortWrites(ts)
    ensures [] !in PastOf(ts, who, u).taken
    decreases |ts|
  {
    if ts != [] {
      var before, t := ts[..|ts| - 1], ts[|ts| - 1];
      Unroll(ts, who, u);
      Unfold(ts);
      assert t in ts;
      RunKeeps(before);
      TakenNotEmpty(before, who, u);
      if t.who == who && t.action.Call? && t.action.u == u && t.action.op.Write? {
        ChunkIsNotEmpty(Seen(After(before), who), u, t.action.op);
      }
      hide Inv, Enabled, Clean;
    }
  }

  lemma {:induction false} ChunksHas(q: seq<Message>, m: Message)
    requires m in q && m.Data?
    ensures m.data in Chunks(q)
  {
    if q[0] != m {
      ChunksHas(q[1..], m);
    }
  }

  /** In a clean run with short writes no data message on the wire is empty: what is on the wire was
      reserved. */
  lemma WritesAreNotEmpty(ts: seq<Turn>, who: Who)
    requires Legal(ts) && Clean(ts) && ShortWrites(ts)
    ensures NoEmptyData(Messages(OnWire(ts, who)))
  {
    var out := OnWire(ts, who);
    forall m | m in Messages(out) && m.Data? ensures m.data != [] {
      var k :| 0 <= k < |out| && out[k].msg == m;
      var u := out[k].src;
      StreamHas(out, out[k]);
      ChunksHas(SentOn(ts, who, u), m);
      HistoryIsFaithful(ts, who, u);
      TakenNotEmpty(ts, who, u);
    }
  }
}
