/**
 Two sessions joined by two wires: every run of the Go multiplexer against itself.
 A wire is the queue of messages one side has sent and the other has not yet processed. Each
 message carries, as history, the heap index of the channel that sent it; the sessions never look
 at it. A turn is one step of one side, as Endpoint.dfy has them. The handling of an open request takes
 two turns, that of a Close three; `Open`, an iteration of `Write` and a `Read` take two. Between them the
 loop, the other users of that side, and the whole other side, may take theirs.
 */
module Network {
  import opened Wrappers
  import opened Wire
  import opened Endpoint
  import Link
  import Table

  datatype Packet = Packet(msg: Message, src: nat)

  datatype Side = Side(s: Sess, hist: seq<Link.Hist>, out: seq<Packet>)

  datatype Net = Net(l: Side, r: Side)

  const NEW_SIDE := Side(Sess([], [], None, Idle), [], [])
  const START := Net(NEW_SIDE, NEW_SIDE)

  function Swap(n: Net): Net {
    Net(n.r, n.l)
  }

  // ---------------------------------------------------------------- turns

  /** `OpenCall` allocates a channel, and `Request` sends its request. `Proceed` is the loop's next step in
      handling an open request or a Close, `Fail` the transport ending the loop. */
  datatype Action = OpenCall | Request(u: nat) | Call(u: nat, op: UserOp) | Receive | Proceed | Fail

  datatype Who = Left | Right

  datatype Turn = Turn(who: Who, action: Action)

  function Tag(out: seq<Message>, u: nat): seq<Packet> {
    seq(|out|, i requires 0 <= i < |out| => Packet(out[i], u))
  }

  /** Channel u is in its session's table. */
  predicate Live(s: Sess, u: nat)
    requires u < |s.heap|
  {
    var id := s.heap[u].localId;
    id < |s.table| && s.table[id] == Some(u)
  }

  /** What has to hold of a side for its turns to be defined. */
  predicate SideOk(n: Side) {
    && |n.hist| == |n.s.heap|
    && |n.s.table| < TWO32
    && (forall i | 0 <= i < |n.s.table| && n.s.table[i].Some? ::
          n.s.table[i].value < |n.s.heap| && n.s.heap[n.s.table[i].value].localId == i)
    && (forall u | 0 <= u < |n.s.heap| :: n.s.heap[u].maxIncomingPayload == CHANNEL_MAX_PACKET)
    && (n.s.err.Some? ==> n.s.table == [] && n.s.loop.Idle?)
    && (!n.s.loop.Idle? ==> n.s.loop.u < |n.s.heap|)
    && (forall p | p in n.out :: PacketOk(p, |n.s.heap|))
  }

  predicate PacketOk(p: Packet, channels: nat) {
    p.src < channels && (p.msg.Open? ==> GoodPacketSize(p.msg.maxPacketSize))
  }

  predicate Ok(n: Net) {
    SideOk(n.l) && SideOk(n.r)
  }

  /** Sessions hold fewer than 2^32 - 1 channels at a time, so that local numbers fit on the wire. */
  predicate Room(s: Sess) {
    Table.FirstFree(s.table) < TWO32 - 1
  }

  predicate Enabled(n: Net, a: Action) {
    match a
    case OpenCall => n.l.s.err.None? && Room(n.l.s)
    case Request(u) => u < |n.l.s.heap| == |n.l.hist| && n.l.hist[u].requesting
    case Call(u, op) => u < |n.l.s.heap| == |n.l.hist| && Link.MayApply(n.l.s.heap[u], n.l.hist[u], op)
    case Receive =>
      n.l.s.err.None? && n.l.s.loop.Idle? && n.r.out != [] && (n.r.out[0].msg.Open? ==> Room(n.l.s))
    case Proceed => !n.l.s.loop.Idle?
    case Fail => n.l.s.err.None? && n.l.s.loop.Idle?
  }

  function View(n: Side, u: nat): Link.End
    requires u < |n.s.heap| == |n.hist|
  {
    Link.End(n.s.heap[u], n.hist[u], Live(n.s, u), n.s.err.Some?, n.s.loop == Confirming(u))
  }

  /** A chunk that is encoded behind its channel's Close, or a Close that goes out before its channel's
      confirmation, while the other session still runs. */
  predicate Stale(n: Net, a: Action) {
    && a.Call? && a.u < |n.l.s.heap| == |n.l.hist|
    && Link.Stale(View(n.l, a.u), a.op)
    && n.r.s.err.None?
  }

  /** The history of a side whose loop ends: `close` runs for every channel still in the table. */
  function FailHist(s: Sess, hist: seq<Link.Hist>): seq<Link.Hist> {
    seq(|hist|, u requires 0 <= u < |hist| =>
      if Some(u) in s.table then hist[u].(closeRuns := hist[u].closeRuns + 1) else hist[u])
  }

  /** The channel that a message is for, or the one it creates. */
  function Target(s: Sess, m: Message): nat {
    if m.Open? then |s.heap|
    else match Table.Get(s.table, m.channelId) case None => |s.heap| case Some(u) => u
  }

  function ReceiveHist(n: Side, p: Packet): seq<Link.Hist>
    requires SideOk(n)
  {
    var u := Target(n.s, p.msg);
    if p.msg.Open? then
      if GoodPacketSize(p.msg.maxPacketSize) then n.hist + [Link.NEW_HIST.(peer := Some(p.src))] else n.hist
    else if u < |n.hist| then
      var r := Handle(n.s.heap[u], p.msg);
      n.hist[u := Link.NoteAll(Link.NoteHandled(n.hist[u], p.msg), r.out)]
    else n.hist
  }

  /** Process the next message of the other side's wire. */
  function ReceiveStep(n: Net): Net
    requires Ok(n) && n.r.out != []
  {
    var p := n.r.out[0];
    assert p in n.r.out;
    var before := OnePacket(n.l.s, p.msg);
    var after := LoopStep(n.l.s, p.msg);
    var u := Target(n.l.s, p.msg);
    var hist := ReceiveHist(n.l, p);
    var l := Side(after.s, if before.err.Some? then FailHist(before.s, hist) else hist, n.l.out + Tag(after.out, u));
    var accepted := p.msg.Open? && GoodPacketSize(p.msg.maxPacketSize);
    Net(l, Side(n.r.s,
                if accepted then n.r.hist[p.src := n.r.hist[p.src].(peer := Some(u))] else n.r.hist,
                n.r.out[1..]))
  }

  const OPENING := Link.NEW_HIST.(requesting := true)

  function OpenStep(n: Side): Side {
    Side(AddChan(n.s, OutboundChan(NextId(n.s))), n.hist + [OPENING], n.out)
  }

  function RequestStep(n: Side, u: nat): Side
    requires u < |n.s.heap| == |n.hist|
  {
    n.(hist := n.hist[u := n.hist[u].(requesting := false)], out := n.out + Tag([OpenRequest(n.s.heap[u])], u))
  }

  function CallStep(n: Side, u: nat, op: UserOp): Side
    requires u < |n.s.heap| == |n.hist|
  {
    var r := UserCall(n.s, u, op);
    Side(r.s, n.hist[u := Link.UserStep(View(n, u), op).h], n.out + Tag(r.out, u))
  }

  /** The history of the channel that the loop's next step is about. */
  function ProceedHist(l: Loop, c: Chan, h: Link.Hist): Link.Hist {
    match l
    case Confirming(_) => Link.Note(h, Confirm(c))
    case Shutting(_) => h.(closeRuns := h.closeRuns + 1)
    case _ => h
  }

  /** The loop's next step in handling an open request or a Close. */
  function ProceedStep(n: Side): Side
    requires SideOk(n) && !n.s.loop.Idle?
  {
    var r, u := Endpoint.Proceed(n.s), n.s.loop.u;
    Side(r.s, n.hist[u := ProceedHist(n.s.loop, n.s.heap[u], n.hist[u])], n.out + Tag(r.out, u))
  }

  /** The session's loop ends with an error. */
  function FailSide(n: Side, e: Error): Side {
    Side(Teardown(n.s, e), FailHist(n.s, n.hist), n.out)
  }

  function FailStep(n: Side): Side {
    FailSide(n, Transport)
  }

  /** One action of the left side. */
  function Next(n: Net, a: Action): Net
    requires Ok(n) && Enabled(n, a)
  {
    match a
    case OpenCall => n.(l := OpenStep(n.l))
    case Request(u) => n.(l := RequestStep(n.l, u))
    case Call(u, op) => n.(l := CallStep(n.l, u, op))
    case Receive => ReceiveStep(n)
    case Proceed => n.(l := ProceedStep(n.l))
    case Fail => n.(l := FailStep(n.l))
  }

  predicate MayTurn(n: Net, t: Turn) {
    match t.who
    case Left => Enabled(n, t.action)
    case Right => Enabled(Swap(n), t.action)
  }

  function Take(n: Net, t: Turn): Net
    requires Ok(n) && MayTurn(n, t)
  {
    match t.who
    case Left => Next(n, t.action)
    case Right => Swap(Next(Swap(n), t.action))
  }

  // ---------------------------------------------------------------- the invariant

  /** The messages of one channel among all that are in flight. */
  function Stream(out: seq<Packet>, u: nat): seq<Message> {
    if out == [] then []
    else (if out[0].src == u then [out[0].msg] else []) + Stream(out[1..], u)
  }

  /** Channel u of e and channel v of f are the two ends of a link. */
  predicate Joined(e: Side, f: Side, u: nat, v: nat)
    requires SideOk(e) && SideOk(f)
  {
    && u < |e.s.heap| && v < |f.s.heap|
    && e.hist[u].peer == Some(v) && f.hist[v].peer == Some(u)
    && e.s.heap[u].direction != f.s.heap[v].direction
    && Link.Inv(View(e, u), View(f, v), Stream(e.out, u), Stream(f.out, v), e.s.heap[u].direction.Outbound?)
  }

  /** A channel of e waits for its open request to be processed, or is one end of a link. */
  predicate ChannelOk(e: Side, f: Side, u: nat)
    requires SideOk(e) && SideOk(f) && u < |e.s.heap|
  {
    match e.hist[u].peer
    case None => Link.Opening(View(e, u), Stream(e.out, u))
    case Some(v) => Joined(e, f, u, v)
  }

  ghost predicate Linked(e: Side, f: Side)
    requires SideOk(e) && SideOk(f)
  {
    forall u | 0 <= u < |e.s.heap| :: ChannelOk(e, f, u)
  }

  /** Where channel u is when its session's loop is at l: shut or in the table, but for the channel whose
      Close is being handled. */
  predicate AtStage(l: Loop, u: nat, e: Link.End) {
    if l == Freeing(u) then e.h.gotClose && e.live
    else if l == Shutting(u) then e.h.gotClose && !e.live && !e.c.winClosed
    else (e.live <==> !e.c.winClosed) && (e.live ==> !e.h.gotClose)
  }

  ghost predicate Staged(n: Side)
    requires SideOk(n)
  {
    forall u | 0 <= u < |n.s.heap| :: AtStage(n.s.loop, u, View(n, u))
  }

  /** Only the transport has ended a session. */
  predicate Calm(n: Side) {
    n.s.err in {None, Some(Transport)}
  }

  ghost predicate Inv(n: Net) {
    && Ok(n)
    && Linked(n.l, n.r) && Linked(n.r, n.l)
    && Staged(n.l) && Staged(n.r)
    && Calm(n.l) && Calm(n.r)
  }

  // ---------------------------------------------------------------- framing

  lemma Flip(e: Side, f: Side, u: nat, v: nat)
    requires SideOk(e) && SideOk(f) && Joined(e, f, u, v)
    ensures Joined(f, e, v, u)
  {
  }

  lemma {:induction false} StreamAppend(out: seq<Packet>, p: Packet, u: nat)
    ensures Stream(out + [p], u) == Stream(out, u) + if p.src == u then [p.msg] else []
  {
    var last := if p.src == u then [p.msg] else [];
    if out == [] {
      assert out + [p] == [p];
    } else {
      var tail := out[1..];
      var first := if out[0].src == u then [out[0].msg] else [];
      StreamAppend(tail, p, u);
      assert Stream(out + [p], u) == first + Stream(tail + [p], u) by {
        assert (out + [p])[1..] == tail + [p];
      }
      assert first + (Stream(tail, u) + last) == (first + Stream(tail, u)) + last;
    }
  }

  lemma StreamTag(out: seq<Packet>, ms: seq<Message>, w: nat, u: nat)
    requires |ms| <= 1
    ensures Stream(out + Tag(ms, w), u) == Stream(out, u) + if w == u then ms else []
  {
    if ms == [] {
      assert out + Tag(ms, w) == out;
    } else {
      assert Tag(ms, w) == [Packet(ms[0], w)];
      StreamAppend(out, Packet(ms[0], w), u);
    }
  }

  lemma {:induction false} StreamNone(out: seq<Packet>, u: nat)
    requires forall p | p in out :: p.src < u
    ensures Stream(out, u) == []
  {
    if out != [] {
      assert out[0] in out && forall p | p in out[1..] :: p in out;
      StreamNone(out[1..], u);
    }
  }

  /** Nothing the invariant says about channel u can tell the two sides apart. */
  predicate Same(e: Side, e': Side, u: nat)
    requires SideOk(e) && SideOk(e') && u < |e.s.heap| <= |e'.s.heap|
  {
    View(e, u) == View(e', u) && Stream(e.out, u) == Stream(e'.out, u)
  }

  ghost predicate OthersSame(e: Side, e': Side, w: nat)
    requires SideOk(e) && SideOk(e') && |e.s.heap| <= |e'.s.heap|
  {
    forall u | 0 <= u < |e.s.heap| && u != w :: Same(e, e', u)
  }

  lemma Carry(e: Side, e': Side, f: Side, f': Side, u: nat)
    requires SideOk(e) && SideOk(e') && SideOk(f) && SideOk(f')
    requires u < |e.s.heap| <= |e'.s.heap| && |f.s.heap| <= |f'.s.heap|
    requires ChannelOk(e, f, u) && Same(e, e', u)
    requires e.hist[u].peer.Some? ==> Same(f, f', e.hist[u].peer.value)
    ensures ChannelOk(e', f', u)
  {
    assert View(e, u).c == e'.s.heap[u] && View(e, u).h == e'.hist[u];
    if e.hist[u].peer.Some? {
      var v := e.hist[u].peer.value;
      assert View(f, v).c == f'.s.heap[v] && View(f, v).h == f'.hist[v];
    }
  }

  /** A turn that touches one link leaves all the others as they are. */
  lemma Isolation(n: Net, n': Net, u: nat, v: nat)
    requires Inv(n) && Ok(n') && Joined(n.l, n.r, u, v)
    requires |n'.l.s.heap| == |n.l.s.heap| && |n'.r.s.heap| == |n.r.s.heap|
    requires OthersSame(n.l, n'.l, u) && OthersSame(n.r, n'.r, v)
    requires Joined(n'.l, n'.r, u, v)
    ensures Linked(n'.l, n'.r) && Linked(n'.r, n'.l)
  {
    forall w | 0 <= w < |n'.l.s.heap| ensures ChannelOk(n'.l, n'.r, w) {
      assert ChannelOk(n.l, n.r, w);
      if w != u { Carry(n.l, n'.l, n.r, n'.r, w); }
    }
    Flip(n.l, n.r, u, v);
    Flip(n'.l, n'.r, u, v);
    forall w | 0 <= w < |n'.r.s.heap| ensures ChannelOk(n'.r, n'.l, w) {
      assert ChannelOk(n.r, n.l, w);
      if w != v { Carry(n.r, n'.r, n.l, n'.l, w); }
    }
  }

  predicate About(l: Loop, u: nat) {
    l.Idle? || l.u == u
  }

  /** A step of one channel, or of the loop about it, leaves the others at their stage. */
  lemma StagedKeeps(n: Side, n': Side, u: nat)
    requires SideOk(n) && SideOk(n') && Staged(n) && |n.s.heap| == |n'.s.heap| && u < |n.s.heap|
    requires OthersSame(n, n', u)
    requires n'.s.loop == n.s.loop || (About(n.s.loop, u) && About(n'.s.loop, u))
    requires AtStage(n'.s.loop, u, View(n', u))
    ensures Staged(n')
  {
    forall w | 0 <= w < |n.s.heap| ensures AtStage(n'.s.loop, w, View(n', w)) {
      assert AtStage(n.s.loop, w, View(n, w));
      if w != u { assert Same(n, n', w); }
    }
  }

  // ---------------------------------------------------------------- turns are defined

  /** No call of a user on a channel, and no handler, sends an open request. */
  lemma NoneOpens(c: Chan, op: UserOp, m: Message)
    ensures forall x | x in Apply(c, op).out + Handle(c, m).out :: !x.Open?
  {
    match m
    case Close(_) =>
    case OpenConfirm(_, _, _, _) =>
    case WindowAdjust(_, _) =>
    case Data(_, _, _) =>
    case _ =>
  }

  lemma CallOk(n: Side, u: nat, op: UserOp)
    requires SideOk(n) && u < |n.s.heap|
    ensures SideOk(CallStep(n, u, op)) && |CallStep(n, u, op).s.heap| == |n.s.heap|
  {
    hide Apply;
    NoneOpens(n.s.heap[u], op, Eof(0));
    CallShape(n.s.heap[u], op);
  }

  /** The loop stays where it is, or goes on to confirm channel k. */
  predicate LoopMay(l: Loop, l': Loop, k: nat) {
    l' == l || (l == Idle && l' == Confirming(k))
  }

  /** Allocating a channel, with the packets that this sends. */
  lemma AddOk(n: Side, c: Chan, h: Link.Hist, ms: seq<Message>, l: Loop)
    requires SideOk(n) && n.s.err.None? && Room(n.s) && c.localId == NextId(n.s)
    requires c.maxIncomingPayload == CHANNEL_MAX_PACKET
    requires LoopMay(n.s.loop, l, |n.s.heap|)
    requires forall m | m in ms && m.Open? :: GoodPacketSize(m.maxPacketSize)
    ensures SideOk(Side(AddChan(n.s, c).(loop := l), n.hist + [h], n.out + Tag(ms, |n.s.heap|)))
  {
    var out := n.out + Tag(ms, |n.s.heap|);
    forall p | p in out ensures PacketOk(p, |n.s.heap| + 1) {
      assert p in n.out ==> PacketOk(p, |n.s.heap|);
    }
    AddChanKeeps(n, c, h, out, l);
  }

  lemma SettleOk(n: Side, u: nat, r: Handled, h: Link.Hist)
    requires SideOk(n) && u < |n.s.heap| && n.s.err.None? && r.c.localId == n.s.heap[u].localId
    requires r.c.maxIncomingPayload == CHANNEL_MAX_PACKET
    requires forall m | m in r.out :: !m.Open?
    ensures SideOk(Side(Settle(n.s, u, r), n.hist[u := h], n.out + Tag(r.out, u)))
  {
  }

  /** A side after its channel u has handled a message, before the loop looks at the error. */
  function HandledSide(n: Side, u: nat, m: Message): Side
    requires u < |n.s.heap| == |n.hist|
  {
    var r := Handle(n.s.heap[u], m);
    Side(Settle(n.s, u, r), n.hist[u := Link.NoteAll(Link.NoteHandled(n.hist[u], m), r.out)], n.out + Tag(r.out, u))
  }

  lemma LostCase(n: Net, p: Packet)
    requires Ok(n) && n.r.out != [] && n.r.out[0] == p && !p.msg.Open?
    requires Table.Get(n.l.s.table, p.msg.channelId).None?
    ensures ReceiveStep(n).l == FailSide(n.l, InvalidChannel(p.msg.channelId))
  {
    NothingMore(n.l.out);
    assert Tag([], Target(n.l.s, p.msg)) == [];
    hide SideOk;
  }

  lemma FoundCase(n: Net, p: Packet, u: nat)
    requires Ok(n) && n.r.out != [] && n.r.out[0] == p && !p.msg.Open?
    requires Table.Get(n.l.s.table, p.msg.channelId) == Some(u)
    ensures u < |n.l.s.heap|
    ensures var after := HandledSide(n.l, u, p.msg);
            ReceiveStep(n).l == match Handle(n.l.s.heap[u], p.msg).err
                                case None => after
                                case Some(e) => FailSide(after, e)
  {
    assert u < |n.l.s.heap|;
    hide SideOk, Handle, Table.Get, Link.NoteAll;
  }

  /** What processing a message that opens nothing comes to. */
  lemma ReceiveCases(n: Net, p: Packet, u: nat)
    requires Ok(n) && n.r.out != [] && n.r.out[0] == p && !p.msg.Open? && u == Target(n.l.s, p.msg)
    ensures ReceiveStep(n).r == n.r.(out := n.r.out[1..])
    ensures var l := ReceiveStep(n).l;
            if Table.Get(n.l.s.table, p.msg.channelId).None? then
              l == FailSide(n.l, InvalidChannel(p.msg.channelId))
            else
              && u < |n.l.s.heap| && Table.Get(n.l.s.table, p.msg.channelId) == Some(u)
              && var after := HandledSide(n.l, u, p.msg);
                 l == match Handle(n.l.s.heap[u], p.msg).err case None => after case Some(e) => FailSide(after, e)
  {
    assert ReceiveStep(n).r == n.r.(out := n.r.out[1..]);
    hide ReceiveStep;
    if Table.Get(n.l.s.table, p.msg.channelId).None? { LostCase(n, p); } else { FoundCase(n, p, u); }
  }

  lemma HandledOk(n: Side, u: nat, m: Message)
    requires SideOk(n) && u < |n.s.heap| && n.s.err.None?
    ensures SideOk(HandledSide(n, u, m)) && |HandledSide(n, u, m).s.heap| == |n.s.heap|
  {
    HandleShape(n.s.heap[u], m);
    NoneOpens(n.s.heap[u], CloseWrite, m);
    SettleOk(n, u, Handle(n.s.heap[u], m), HandledSide(n, u, m).hist[u]);
  }

  lemma AcceptOk(n: Net)
    requires Ok(n) && Enabled(n, Receive) && n.r.out[0].msg.Open?
    ensures SideOk(ReceiveStep(n).l)
  {
    var p, s := n.r.out[0], n.l.s;
    assert p in n.r.out;
    AddOk(n.l, InboundChan(p.msg, NextId(s)), Link.NEW_HIST.(peer := Some(p.src)), HandleOpen(s, p.msg).out,
          Confirming(|s.heap|));
    hide SideOk;
  }

  lemma FailOk(n: Side, e: Error)
    requires SideOk(n)
    ensures SideOk(FailSide(n, e))
  {
  }

  lemma HandleOk(n: Net)
    requires Ok(n) && Enabled(n, Receive) && !n.r.out[0].msg.Open?
    ensures SideOk(ReceiveStep(n).l)
  {
    var p, s := n.r.out[0], n.l.s;
    ReceiveCases(n, p, Target(s, p.msg));
    hide ReceiveStep, HandledSide, Handle, FailSide, SideOk;
    if Table.Get(s.table, p.msg.channelId).None? {
      FailOk(n.l, InvalidChannel(p.msg.channelId));
    } else {
      var u := Target(s, p.msg);
      HandledOk(n.l, u, p.msg);
      var err := Handle(s.heap[u], p.msg).err;
      if err.Some? { FailOk(HandledSide(n.l, u, p.msg), err.value); }
    }
  }

  /** Processing any message leaves both sides in order, also when it ends the session. */
  lemma ReceiveOk(n: Net)
    requires Ok(n) && Enabled(n, Receive)
    ensures Ok(ReceiveStep(n))
  {
    var p := n.r.out[0];
    assert p in n.r.out;
    assert SideOk(ReceiveStep(n).r) by {
      assert PacketOk(p, |n.r.s.heap|) && forall x | x in n.r.out[1..] :: x in n.r.out;
    }
    hide SideOk, ReceiveStep;
    if p.msg.Open? { AcceptOk(n); } else { HandleOk(n); }
  }

  lemma RequestOk(n: Side, u: nat)
    requires SideOk(n) && u < |n.s.heap|
    ensures SideOk(RequestStep(n, u))
  {
    assert GoodPacketSize(CHANNEL_MAX_PACKET);
    forall p | p in RequestStep(n, u).out ensures PacketOk(p, |n.s.heap|) {
      if p !in n.out { assert p == Packet(OpenRequest(n.s.heap[u]), u); }
    }
  }

  /** Every turn is defined after every other: `Ok` needs no assumption about how users behave. */
  lemma NextOk(n: Net, a: Action)
    requires Ok(n) && Enabled(n, a)
    ensures Ok(Next(n, a))
  {
    match a
    case OpenCall =>
      AddOk(n.l, OutboundChan(NextId(n.l.s)), OPENING, [], n.l.s.loop);
      assert n.l.out + Tag([], |n.l.s.heap|) == n.l.out;
    case Request(u) => RequestOk(n.l, u);
    case Call(u, op) => CallOk(n.l, u, op);
    case Receive => ReceiveOk(n);
    case Proceed =>
    case Fail =>
  }

  lemma TurnOk(n: Net, t: Turn)
    requires Ok(n) && MayTurn(n, t)
    ensures Ok(Take(n, t))
  {
    match t.who
    case Left => NextOk(n, t.action);
    case Right => NextOk(Swap(n), t.action);
  }

  // ---------------------------------------------------------------- turns keep the invariant

  /** What no call changes about a channel, and how much it can send. */
  lemma CallShape(c: Chan, op: UserOp)
    ensures var f := Apply(c, op);
            && |f.out| <= 1 && f.c.localId == c.localId && f.c.direction == c.direction
            && f.c.maxIncomingPayload == c.maxIncomingPayload
  {
  }

  lemma CallView(n: Side, u: nat, op: UserOp)
    requires SideOk(n) && u < |n.s.heap|
    ensures |Apply(n.s.heap[u], op).out| <= 1
    ensures var n' := CallStep(n, u, op);
            && SideOk(n') && |n'.s.heap| == |n.s.heap|
            && View(n', u) == Link.UserStep(View(n, u), op)
            && n'.hist[u].peer == n.hist[u].peer
            && n'.s.heap[u].direction == n.s.heap[u].direction
            && Stream(n'.out, u) == Stream(n.out, u) + Apply(n.s.heap[u], op).out
            && OthersSame(n, n', u)
  {
    var n' := CallStep(n, u, op);
    var ms := Apply(n.s.heap[u], op).out;
    CallShape(n.s.heap[u], op);
    CallOk(n, u, op);
    var h := n.hist[u];
    Link.UserStage(View(n, u), op);
    hide Apply, Stream, SideOk;
    forall w | 0 <= w < |n.s.heap| ensures Stream(n'.out, w) == Stream(n.out, w) + if u == w then ms else [] {
      StreamTag(n.out, ms, u, w);
    }
  }

  lemma CallKeeps(n: Net, u: nat, op: UserOp)
    requires Inv(n) && Enabled(n, Call(u, op)) && !Stale(n, Call(u, op))
    ensures Inv(Next(n, Call(u, op)))
  {
    var n' := Next(n, Call(u, op));
    CallView(n.l, u, op);
    CallJoined(n, n', u, op);
    CallStaged(n.l, u, op);
    hide Joined, Stream, SideOk, CallStep;
    Isolation(n, n', u, n.l.hist[u].peer.value);
  }

  lemma CallJoined(n: Net, n': Net, u: nat, op: UserOp)
    requires Inv(n) && Enabled(n, Call(u, op)) && !Stale(n, Call(u, op)) && n' == Next(n, Call(u, op)) && Ok(n')
    ensures n.l.hist[u].peer.Some? && Joined(n.l, n.r, u, n.l.hist[u].peer.value)
    ensures Joined(n'.l, n'.r, u, n.l.hist[u].peer.value)
  {
    assert ChannelOk(n.l, n.r, u);
    CallView(n.l, u, op);
    var v := n.l.hist[u].peer.value;
    hide SideOk, CallStep;
    Link.UserKeeps(View(n.l, u), View(n'.l, u), View(n.r, v), Stream(n.l.out, u), Stream(n.r.out, v),
                   n.l.s.heap[u].direction.Outbound?, op);
  }

  lemma CallStaged(n: Side, u: nat, op: UserOp)
    requires SideOk(n) && Staged(n) && u < |n.s.heap|
    ensures SideOk(CallStep(n, u, op)) && Staged(CallStep(n, u, op))
  {
    CallView(n, u, op);
    Link.UserStage(View(n, u), op);
    assert AtStage(n.s.loop, u, View(n, u));
    StagedKeeps(n, CallStep(n, u, op), u);
  }

  /** Allocating a channel disturbs no other, and the new one is in the table under its number. */
  lemma AddChanKeeps(n: Side, c: Chan, h: Link.Hist, out: seq<Packet>, l: Loop)
    requires SideOk(n) && n.s.err.None? && Room(n.s) && c.localId == NextId(n.s)
    requires c.maxIncomingPayload == CHANNEL_MAX_PACKET
    requires LoopMay(n.s.loop, l, |n.s.heap|)
    requires forall p | p in out :: PacketOk(p, |n.s.heap| + 1)
    ensures var n' := Side(AddChan(n.s, c).(loop := l), n.hist + [h], out);
            && SideOk(n')
            && View(n', |n.s.heap|) == Link.End(c, h, true, false, l == Confirming(|n.s.heap|))
            && forall u | 0 <= u < |n.s.heap| :: View(n', u) == View(n, u)
  {
    var n' := Side(AddChan(n.s, c).(loop := l), n.hist + [h], out);
    var k := Table.FirstFree(n.s.table);
    assert k == c.localId;
    assert n'.s.table[k] == Some(|n.s.heap|);
    assert forall i | 0 <= i < |n.s.table| && i != k :: n'.s.table[i] == n.s.table[i];
    forall u | 0 <= u < |n.s.heap| ensures Live(n'.s, u) == Live(n.s, u) {
      assert n'.s.heap[u] == n.s.heap[u];
      if n.s.heap[u].localId == k {
        assert !Live(n.s, u) && !Live(n'.s, u);
      }
    }
  }

  /** The opening side gains the channel that `Open` creates, and is about to send its request. */
  lemma OpenLeft(n: Net, n': Net)
    requires Inv(n) && Enabled(n, OpenCall) && n' == Next(n, OpenCall)
    ensures var k := |n.l.s.heap|;
            && SideOk(n'.l) && |n'.l.s.heap| == k + 1 && n'.l.s.loop == n.l.s.loop && n'.l.s.err == n.l.s.err
            && n'.l.hist[k].peer.None?
            && Link.Opening(View(n'.l, k), Stream(n'.l.out, k))
            && AtStage(n'.l.s.loop, k, View(n'.l, k))
            && forall u | 0 <= u < k :: Same(n.l, n'.l, u)
  {
    hide Stream;
    var e, k := n.l, |n.l.s.heap|;
    AddChanKeeps(e, OutboundChan(NextId(e.s)), OPENING, e.out, e.s.loop);
    StreamNone(e.out, k);
  }

  lemma OpenStaged(n: Net, n': Net)
    requires SideOk(n.l) && SideOk(n'.l) && Staged(n.l) && n'.l.s.loop == n.l.s.loop
    requires |n'.l.s.heap| == |n.l.s.heap| + 1 && forall u | 0 <= u < |n.l.s.heap| :: Same(n.l, n'.l, u)
    requires AtStage(n'.l.s.loop, |n.l.s.heap|, View(n'.l, |n.l.s.heap|))
    ensures Staged(n'.l)
  {
    hide AtStage, View;
    forall u | 0 <= u < |n'.l.s.heap| ensures AtStage(n'.l.s.loop, u, View(n'.l, u)) {
      if u < |n.l.s.heap| { assert Same(n.l, n'.l, u) && AtStage(n.l.s.loop, u, View(n.l, u)); }
    }
  }

  lemma OpenKeeps(n: Net)
    requires Inv(n) && Enabled(n, OpenCall)
    ensures Inv(Next(n, OpenCall))
  {
    var k := |n.l.s.heap|;
    var n' := Next(n, OpenCall);
    OpenLeft(n, n');
    OpenStaged(n, n');
    hide Next, Stream, View, Staged;
    forall u | 0 <= u < |n'.l.s.heap| ensures ChannelOk(n'.l, n'.r, u) {
      if u < k {
        assert ChannelOk(n.l, n.r, u);
        Carry(n.l, n'.l, n.r, n'.r, u);
      }
    }
    forall v | 0 <= v < |n'.r.s.heap| ensures ChannelOk(n'.r, n'.l, v) {
      assert ChannelOk(n.r, n.l, v);
      Carry(n.r, n'.r, n.l, n'.l, v);
    }
  }

  /** The request of a channel goes on the wire. */
  lemma RequestView(n: Side, u: nat)
    requires SideOk(n) && u < |n.s.heap|
    ensures var n' := RequestStep(n, u);
            && SideOk(n')
            && View(n', u) == View(n, u).(h := n.hist[u].(requesting := false))
            && Stream(n'.out, u) == Stream(n.out, u) + [OpenRequest(n.s.heap[u])]
            && OthersSame(n, n', u)
  {
    RequestOk(n, u);
    var n', ms := RequestStep(n, u), [OpenRequest(n.s.heap[u])];
    forall w | 0 <= w < |n.s.heap| ensures Stream(n'.out, w) == Stream(n.out, w) + if u == w then ms else [] {
      StreamTag(n.out, ms, u, w);
    }
    forall w | 0 <= w < |n.s.heap| && w != u ensures Same(n, n', w) {
      NothingMore(Stream(n.out, w));
    }
  }

  lemma RequestKeeps(n: Net, u: nat)
    requires Inv(n) && Enabled(n, Request(u))
    ensures Inv(Next(n, Request(u)))
  {
    var n' := Next(n, Request(u));
    RequestView(n.l, u);
    assert ChannelOk(n.l, n.r, u) && AtStage(n.l.s.loop, u, View(n.l, u));
    assert n.l.hist[u].peer.None?;
    Link.RequestKeeps(View(n.l, u), View(n'.l, u), Stream(n.l.out, u));
    StagedKeeps(n.l, n'.l, u);
    RequestLinked(n, n', u);
  }

  /** The other channels are linked as before. */
  lemma RequestLinked(n: Net, n': Net, u: nat)
    requires Inv(n) && Ok(n') && n'.r == n.r && u < |n.l.s.heap| == |n'.l.s.heap| && n.l.hist[u].peer.None?
    requires OthersSame(n.l, n'.l, u) && ChannelOk(n'.l, n'.r, u)
    ensures Linked(n'.l, n'.r) && Linked(n'.r, n'.l)
  {
    hide Stream, View, Staged;
    forall w | 0 <= w < |n'.l.s.heap| ensures ChannelOk(n'.l, n'.r, w) {
      if w != u {
        assert ChannelOk(n.l, n.r, w);
        Carry(n.l, n'.l, n.r, n'.r, w);
      }
    }
    forall v | 0 <= v < |n'.r.s.heap| ensures ChannelOk(n'.r, n'.l, v) {
      assert ChannelOk(n.r, n.l, v);
      Carry(n.r, n'.r, n.l, n'.l, v);
    }
  }

  /** In a sound side, being in the table and being found under the own number are the same. */
  lemma LiveIffListed(n: Side, u: nat)
    requires SideOk(n) && u < |n.s.heap|
    ensures Live(n.s, u) <==> Some(u) in n.s.table
  {
    if Some(u) in n.s.table {
      var i :| 0 <= i < |n.s.table| && n.s.table[i] == Some(u);
    }
  }

  lemma FailView(n: Side, u: nat)
    requires SideOk(n) && u < |n.s.heap| && n.s.err.None? && n.s.loop.Idle?
    ensures SideOk(FailStep(n)) && View(FailStep(n), u) == Link.FailStep(View(n, u))
  {
    LiveIffListed(n, u);
  }

  lemma FailKeeps(n: Net)
    requires Inv(n) && Enabled(n, Fail)
    ensures Inv(Next(n, Fail))
  {
    var n' := Next(n, Fail);
    assert SideOk(n'.l);
    forall u | 0 <= u < |n'.l.s.heap| ensures AtStage(n'.l.s.loop, u, View(n'.l, u)) {
      assert AtStage(n.l.s.loop, u, View(n.l, u));
      FailView(n.l, u);
    }
    forall u | 0 <= u < |n'.l.s.heap| ensures ChannelOk(n'.l, n'.r, u) {
      assert ChannelOk(n.l, n.r, u);
      FailView(n.l, u);
      FailJoined(n, n', u);
    }
    forall v | 0 <= v < |n'.r.s.heap| ensures ChannelOk(n'.r, n'.l, v) {
      assert ChannelOk(n.r, n.l, v);
      if n.r.hist[v].peer.Some? {
        var u := n.r.hist[v].peer.value;
        Flip(n.r, n.l, v, u);
        FailView(n.l, u);
        FailJoined(n, n', u);
        Flip(n'.l, n'.r, u, v);
      }
    }
  }

  lemma FailJoined(n: Net, n': Net, u: nat)
    requires Inv(n) && Ok(n') && u < |n.l.s.heap| && n' == n.(l := FailStep(n.l)) && n.l.s.loop.Idle?
    requires View(n'.l, u) == Link.FailStep(View(n.l, u))
    ensures ChannelOk(n'.l, n'.r, u) && n'.l.hist[u].peer == n.l.hist[u].peer
  {
    assert ChannelOk(n.l, n.r, u) && AtStage(n.l.s.loop, u, View(n.l, u));
    match n.l.hist[u].peer
    case None =>
      Link.OpeningFails(View(n.l, u), View(n'.l, u), Stream(n.l.out, u));
    case Some(v) =>
      Link.FailKeeps(View(n.l, u), View(n'.l, u), View(n.r, v), Stream(n.l.out, u), Stream(n.r.out, v),
                     n.l.s.heap[u].direction.Outbound?);
  }

  // ---------------------------------------------------------------- receiving

  /**
   Channel-number reuse is safe: the next message on a wire, unless it opens a channel, is from the
   peer of the channel that its number denotes now, however often the number was reused.
   */
  lemma Routed(n: Net)
    requires Inv(n) && n.r.out != [] && n.l.s.err.None? && !n.r.out[0].msg.Open?
    ensures var p := n.r.out[0];
            var u := Target(n.l.s, p.msg);
            && Table.Get(n.l.s.table, p.msg.channelId) == Some(u)
            && Joined(n.l, n.r, u, p.src)
            && p.msg.channelId == n.l.s.heap[u].localId
            && Stream(n.r.out, p.src) == [p.msg] + Stream(n.r.out[1..], p.src)
  {
    var p := n.r.out[0];
    assert p in n.r.out;
    assert ChannelOk(n.r, n.l, p.src);
    var b := Stream(n.r.out, p.src);
    assert b[0] == p.msg;
    var u := n.r.hist[p.src].peer.value;
    Flip(n.r, n.l, p.src, u);
    assert Link.Addressed(p.msg, n.l.s.heap[u].localId);
    assert Live(n.l.s, u);
    assert |n.l.s.table| % TWO32 == |n.l.s.table|;
  }

  /** The next open request is the whole stream of a channel that waits for it. */
  lemma RoutedOpen(n: Net)
    requires Inv(n) && n.r.out != [] && n.r.out[0].msg.Open?
    ensures var p := n.r.out[0];
            && p.src < |n.r.s.heap| && n.r.hist[p.src].peer.None?
            && Link.Opening(View(n.r, p.src), [p.msg])
            && Stream(n.r.out[1..], p.src) == []
  {
    var p := n.r.out[0];
    assert p in n.r.out;
    assert ChannelOk(n.r, n.l, p.src);
    var b := Stream(n.r.out, p.src);
    assert b[0] == p.msg && p.msg in b;
    if n.r.hist[p.src].peer.Some? {
      assert false;
    }
  }

  /** Putting back a channel, and freeing its slot if it asks for that, leaves the other channels alone. */
  lemma SettleKeeps(n: Side, u: nat, r: Handled, h: Link.Hist, out: seq<Packet>)
    requires SideOk(n) && u < |n.s.heap| && n.s.err.None? && n.s.loop.Idle? && Live(n.s, u)
    requires r.c.localId == n.s.heap[u].localId && r.freed in {None, Some(r.c.localId)}
    requires r.c.maxIncomingPayload == CHANNEL_MAX_PACKET
    requires forall p | p in out :: PacketOk(p, |n.s.heap|)
    ensures var n' := Side(Settle(n.s, u, r), n.hist[u := h], out);
            && SideOk(n')
            && View(n', u) == Link.End(r.c, h, r.freed.None?, false, false)
            && forall w | 0 <= w < |n.s.heap| && w != u :: View(n', w) == View(n, w)
  {
    assert |n.s.table| % TWO32 == |n.s.table|;
    var n' := Side(Settle(n.s, u, r), n.hist[u := h], out);
    forall w | 0 <= w < |n.s.heap| && w != u ensures Live(n'.s, w) == Live(n.s, w) {
      assert n'.s.heap[w] == n.s.heap[w];
    }
  }

  /** The receiving channel takes its step, and the others on its side stay as they are. */
  lemma HandleView(n: Side, u: nat, m: Message, n': Side)
    requires SideOk(n) && u < |n.s.heap| && n.s.err.None? && n.s.loop.Idle? && Live(n.s, u)
    requires Handle(n.s.heap[u], m).freed in {None, Some(n.s.heap[u].localId)}
    requires var r := Handle(n.s.heap[u], m);
             n' == Side(Settle(n.s, u, r), n.hist[u := Link.NoteAll(Link.NoteHandled(n.hist[u], m), r.out)],
                        n.out + Tag(r.out, u))
    ensures SideOk(n') && |n'.s.heap| == |n.s.heap|
    ensures View(n', u) == Link.HandleStep(View(n, u), m)
    ensures n'.hist[u].peer == n.hist[u].peer && n'.s.heap[u].direction == n.s.heap[u].direction
    ensures Stream(n'.out, u) == Stream(n.out, u) + Handle(n.s.heap[u], m).out
    ensures OthersSame(n, n', u)
  {
    var r := Handle(n.s.heap[u], m);
    var h := Link.NoteAll(Link.NoteHandled(n.hist[u], m), r.out);
    HandleShape(n.s.heap[u], m);
    Link.NoteOne(Link.NoteHandled(n.hist[u], m), r.out);
    SettleKeeps(n, u, r, h, n.out + Tag(r.out, u));
    forall w | 0 <= w < |n.s.heap| ensures Stream(n'.out, w) == Stream(n.out, w) + if u == w then r.out else [] {
      StreamTag(n.out, r.out, u, w);
    }
    forall w | 0 <= w < |n.s.heap| && w != u ensures Same(n, n', w) {
      assert Stream(n.out, w) + [] == Stream(n.out, w);
    }
  }

  /** What no message changes about a channel, and how much it can answer. */
  lemma HandleShape(c: Chan, m: Message)
    ensures var r := Handle(c, m);
            && r.c.localId == c.localId && r.c.direction == c.direction && |r.out| <= 1
            && r.c.maxIncomingPayload == c.maxIncomingPayload
  {
    match m
    case OpenConfirm(_, _, _, _) =>
    case WindowAdjust(_, _) =>
    case Close(_) =>
    case Data(_, _, _) =>
    case _ =>
  }

  lemma PopOthers(f: Side, f': Side, v: nat)
    requires SideOk(f) && f.out != [] && f.out[0].src == v && f' == f.(out := f.out[1..])
    ensures SideOk(f') && OthersSame(f, f', v)
  {
    assert forall p | p in f'.out :: p in f.out;
  }

  /** Channel u of a side has processed a message without an error, and nothing else has happened. */
  predicate Processed(e: Side, e': Side, u: nat, m: Message)
    requires SideOk(e) && SideOk(e') && u < |e.s.heap| == |e'.s.heap| && !m.Open?
  {
    var r := Handle(e.s.heap[u], m);
    && m.channelId == e.s.heap[u].localId
    && r.err.None? && r.freed.None? && r.closing == m.Close?
    && OnePacket(e.s, m) == Reply(e'.s, r.out, None)
    && e'.s == Settle(e.s, u, r)
    && View(e', u) == Link.HandleStep(View(e, u), m)
    && Stream(e'.out, u) == Stream(e.out, u) + r.out
    && e'.hist[u].peer == e.hist[u].peer
    && e'.s.heap[u].direction == e.s.heap[u].direction
  }

  /** What processing a message that opens nothing does to the receiving side, channel by channel. */
  lemma HandleShapes(n: Net, n': Net, u: nat)
    requires Inv(n) && Enabled(n, Receive) && !n.r.out[0].msg.Open?
    requires n' == Next(n, Receive) && u == Target(n.l.s, n.r.out[0].msg)
    ensures Joined(n.l, n.r, u, n.r.out[0].src)
    ensures SideOk(n'.l) && |n'.l.s.heap| == |n.l.s.heap| && OthersSame(n.l, n'.l, u)
    ensures Processed(n.l, n'.l, u, n.r.out[0].msg)
  {
    var p := n.r.out[0];
    Routed(n);
    var s', b := Link.HandleStep(View(n.l, u), p.msg), Stream(n.r.out, p.src);
    Link.HandleKeeps(View(n.l, u), s', View(n.r, p.src), Stream(n.l.out, u), b, n.l.s.heap[u].direction.Outbound?);
    HandleView(n.l, u, p.msg, n'.l);
  }

  /** Only the channel whose Close is taken in moves from its stage. */
  lemma HandleStaged(n: Net, n': Net, u: nat)
    requires Inv(n) && Ok(n') && u < |n.l.s.heap| == |n'.l.s.heap| && OthersSame(n.l, n'.l, u)
    requires n.r.out != [] && !n.r.out[0].msg.Open? && n.l.s.loop.Idle? && Live(n.l.s, u)
    requires Processed(n.l, n'.l, u, n.r.out[0].msg) && n'.r == n.r.(out := n.r.out[1..])
    ensures Staged(n'.l) && Staged(n'.r)
  {
    var m := n.r.out[0].msg;
    HandleShape(n.l.s.heap[u], m);
    Link.HandleStage(View(n.l, u), m);
    assert AtStage(n.l.s.loop, u, View(n.l, u));
    StagedKeeps(n.l, n'.l, u);
    forall v | 0 <= v < |n'.r.s.heap| ensures AtStage(n'.r.s.loop, v, View(n'.r, v)) {
      assert AtStage(n.r.s.loop, v, View(n.r, v));
    }
  }

  lemma HandleKeeps(n: Net)
    requires Inv(n) && Enabled(n, Receive) && !n.r.out[0].msg.Open?
    ensures OnePacket(n.l.s, n.r.out[0].msg).err.None?
    ensures Inv(Next(n, Receive))
  {
    hide Joined, Stream, SideOk;
    var p := n.r.out[0];
    var u := Target(n.l.s, p.msg);
    var n' := Next(n, Receive);
    HandleShapes(n, n', u);
    PopOthers(n.r, n'.r, p.src);
    HandleJoined(n, n', u);
    HandleStaged(n, n', u);
    Isolation(n, n', u, p.src);
  }

  lemma HandleJoined(n: Net, n': Net, u: nat)
    requires Inv(n) && Enabled(n, Receive) && !n.r.out[0].msg.Open? && n' == Next(n, Receive) && Ok(n')
    requires u == Target(n.l.s, n.r.out[0].msg) < |n.l.s.heap| == |n'.l.s.heap|
    requires Processed(n.l, n'.l, u, n.r.out[0].msg) && n'.r == n.r.(out := n.r.out[1..])
    ensures Live(n.l.s, u) && Joined(n.l, n.r, u, n.r.out[0].src)
    ensures Joined(n'.l, n'.r, u, n.r.out[0].src)
  {
    var p := n.r.out[0];
    Routed(n);
    var b := Stream(n.r.out, p.src);
    assert Stream(n'.r.out, p.src) == b[1..];
    hide SideOk, Next;
    Link.HandleKeeps(View(n.l, u), View(n'.l, u), View(n.r, p.src), Stream(n.l.out, u), b,
                     n.l.s.heap[u].direction.Outbound?);
  }

  lemma AcceptJoins(n: Net, n': Net)
    requires Ok(n') && n.r.out != []
    requires var p, k := n.r.out[0], |n.l.s.heap|;
             && p.src < |n.r.s.heap| == |n'.r.s.heap| && |n'.l.s.heap| == k + 1
             && |n.r.hist| == |n.r.s.heap| && p.msg.Open?
             && Link.Opening(View(n.r, p.src), [p.msg])
             && View(n'.r, p.src) == View(n.r, p.src).(h := n.r.hist[p.src].(peer := Some(k)))
             && Stream(n'.r.out, p.src) == []
             && View(n'.l, k) == Link.Accepted(p.msg, n'.l.s.heap[k].localId, p.src)
             && Stream(n'.l.out, k) == []
    ensures Joined(n'.r, n'.l, n.r.out[0].src, |n.l.s.heap|)
  {
    var p, k := n.r.out[0], |n.l.s.heap|;
    var x, x', y := View(n.r, p.src), View(n'.r, p.src), View(n'.l, k);
    Link.AcceptKeeps(x, x', y, [p.msg], y.c.localId, p.src, k);
    assert x'.h == n'.r.hist[p.src] && y.h == n'.l.hist[k];
    assert x'.c == n'.r.s.heap[p.src] && y.c == n'.l.s.heap[k];
  }

  /** The accepting side gains the channel that `handleOpen` creates, and is about to confirm it. */
  lemma AcceptLeft(n: Net, n': Net)
    requires Inv(n) && Enabled(n, Receive) && n.r.out[0].msg.Open? && n' == Next(n, Receive)
    requires GoodPacketSize(n.r.out[0].msg.maxPacketSize)
    ensures var p, k := n.r.out[0], |n.l.s.heap|;
            && OnePacket(n.l.s, p.msg).err.None?
            && SideOk(n'.l) && |n'.l.s.heap| == k + 1
            && View(n'.l, k) == Link.Accepted(p.msg, NextId(n.l.s), p.src)
            && Stream(n'.l.out, k) == []
            && forall u | 0 <= u < k :: Same(n.l, n'.l, u)
  {
    var p, k := n.r.out[0], |n.l.s.heap|;
    var c := InboundChan(p.msg, NextId(n.l.s));
    assert n'.l.out == n.l.out;
    AddChanKeeps(n.l, c, Link.NEW_HIST.(peer := Some(p.src)), n.l.out, Confirming(k));
    StreamNone(n.l.out, k);
  }

  /** On the opening side the request leaves the wire, and its channel has a peer. */
  lemma AcceptRight(n: Net, n': Net)
    requires Inv(n) && Enabled(n, Receive) && n.r.out[0].msg.Open? && n' == Next(n, Receive)
    requires GoodPacketSize(n.r.out[0].msg.maxPacketSize) && n.r.out[0].src < |n.r.s.heap|
    requires Stream(n.r.out[1..], n.r.out[0].src) == []
    ensures var u := n.r.out[0].src;
            && SideOk(n'.r) && |n'.r.s.heap| == |n.r.s.heap|
            && View(n'.r, u) == View(n.r, u).(h := n.r.hist[u].(peer := Some(|n.l.s.heap|)))
            && Stream(n'.r.out, u) == []
            && OthersSame(n.r, n'.r, u)
  {
    var u := n.r.out[0].src;
    assert n'.r == Side(n.r.s, n.r.hist[u := n.r.hist[u].(peer := Some(|n.l.s.heap|))], n.r.out[1..]);
    hide Next, SideOk, View, OthersSame, Staged, Linked, Enabled;
    Answered(n.r, n'.r, u, |n.l.s.heap|);
  }

  lemma Answered(f: Side, f': Side, u: nat, k: nat)
    requires SideOk(f) && f.out != [] && f.out[0].src == u < |f.s.heap|
    requires f' == Side(f.s, f.hist[u := f.hist[u].(peer := Some(k))], f.out[1..])
    ensures SideOk(f') && View(f', u) == View(f, u).(h := f.hist[u].(peer := Some(k))) && OthersSame(f, f', u)
  {
    assert forall p | p in f'.out :: p in f.out;
  }

  /** What accepting an open request does to the two sides, channel by channel. */
  lemma AcceptShape(n: Net, n': Net)
    requires Inv(n) && Enabled(n, Receive) && n.r.out[0].msg.Open? && n' == Next(n, Receive)
    ensures OnePacket(n.l.s, n.r.out[0].msg).err.None?
    ensures Ok(n') && |n'.l.s.heap| == |n.l.s.heap| + 1 && |n'.r.s.heap| == |n.r.s.heap|
    ensures forall u | 0 <= u < |n.l.s.heap| :: Same(n.l, n'.l, u)
    ensures OthersSame(n.r, n'.r, n.r.out[0].src)
    ensures Joined(n'.r, n'.l, n.r.out[0].src, |n.l.s.heap|)
  {
    hide Next, Stream, Staged, Linked;
    RoutedOpen(n);
    AcceptLeft(n, n');
    AcceptRight(n, n');
    AcceptJoins(n, n');
  }

  /** Accepting moves no channel from its stage; the new one is in the table. */
  lemma AcceptStaged(n: Net, n': Net)
    requires Inv(n) && Enabled(n, Receive) && n.r.out[0].msg.Open? && n' == Next(n, Receive)
    requires Ok(n') && GoodPacketSize(n.r.out[0].msg.maxPacketSize)
    ensures Staged(n'.l) && Staged(n'.r)
  {
    var k := |n.l.s.heap|;
    AcceptLeft(n, n');
    assert n'.r.s == n.r.s && forall v | 0 <= v < |n.r.hist| :: n'.r.hist[v].gotClose == n.r.hist[v].gotClose;
    assert n'.l.s.loop == Confirming(k);
    hide Next, Stream;
    StagedStays(n.r, n'.r);
    forall u | 0 <= u < |n'.l.s.heap| ensures AtStage(n'.l.s.loop, u, View(n'.l, u)) {
      if u < k { assert Same(n.l, n'.l, u) && AtStage(n.l.s.loop, u, View(n.l, u)); }
    }
  }

  lemma StagedStays(n: Side, n': Side)
    requires SideOk(n) && SideOk(n') && Staged(n) && n'.s == n.s
    requires forall u | 0 <= u < |n.hist| :: n'.hist[u].gotClose == n.hist[u].gotClose
    ensures Staged(n')
  {
    forall u | 0 <= u < |n.s.heap| ensures AtStage(n'.s.loop, u, View(n', u)) {
      assert AtStage(n.s.loop, u, View(n, u));
    }
  }

  lemma AcceptKeeps(n: Net)
    requires Inv(n) && Enabled(n, Receive) && n.r.out[0].msg.Open?
    ensures OnePacket(n.l.s, n.r.out[0].msg).err.None?
    ensures Inv(Next(n, Receive))
  {
    hide Stream, View, Linked, Staged, SideOk;
    var n' := Next(n, Receive);
    AcceptShape(n, n');
    RoutedOpen(n);
    AcceptStaged(n, n');
    AcceptLinked(n, n', n.r.out[0].src);
  }

  /** The new channel and the one that asked for it are linked, and the others as before. */
  lemma AcceptLinked(n: Net, n': Net, v: nat)
    requires Inv(n) && Ok(n') && |n'.l.s.heap| == |n.l.s.heap| + 1 && |n'.r.s.heap| == |n.r.s.heap|
    requires n.r.out != [] && v == n.r.out[0].src < |n.r.s.heap| && n.r.hist[v].peer.None?
    requires forall u | 0 <= u < |n.l.s.heap| :: Same(n.l, n'.l, u)
    requires OthersSame(n.r, n'.r, v) && Joined(n'.r, n'.l, v, |n.l.s.heap|)
    ensures Linked(n'.l, n'.r) && Linked(n'.r, n'.l)
  {
    hide Stream, View, Staged;
    var k := |n.l.s.heap|;
    Flip(n'.r, n'.l, v, k);
    forall u | 0 <= u < |n'.l.s.heap| ensures ChannelOk(n'.l, n'.r, u) {
      if u < k {
        assert ChannelOk(n.l, n.r, u);
        AcceptOther(n, n', u);
      }
    }
    forall w | 0 <= w < |n'.r.s.heap| ensures ChannelOk(n'.r, n'.l, w) {
      assert ChannelOk(n.r, n.l, w);
      if w != v { Carry(n.r, n'.r, n.l, n'.l, w); }
    }
  }

  /** No earlier channel is linked to one whose open request is still in flight. */
  lemma AcceptOther(n: Net, n': Net, u: nat)
    requires Inv(n) && Ok(n') && u < |n.l.s.heap| <= |n'.l.s.heap| && |n.r.s.heap| == |n'.r.s.heap|
    requires n.r.out != [] && n.r.out[0].src < |n.r.s.heap| && n.r.hist[n.r.out[0].src].peer.None?
    requires Same(n.l, n'.l, u) && OthersSame(n.r, n'.r, n.r.out[0].src)
    ensures ChannelOk(n'.l, n'.r, u)
  {
    assert ChannelOk(n.l, n.r, u);
    Carry(n.l, n'.l, n.r, n'.r, u);
  }

  /** The loop's next step about a channel, as a step of that channel's end. */
  function Proceeded(l: Loop, e: Link.End): Link.End {
    match l
    case Idle => e
    case Confirming(_) => Link.ConfirmStep(e)
    case Freeing(_) => Link.FreeStep(e)
    case Shutting(_) => Link.ShutStep(e)
  }

  lemma ProceedView(n: Side, u: nat)
    requires SideOk(n) && Staged(n) && !n.s.loop.Idle? && u == n.s.loop.u
    ensures var n' := ProceedStep(n);
            && SideOk(n') && |n'.s.heap| == |n.s.heap|
            && View(n', u) == Proceeded(n.s.loop, View(n, u))
            && n'.s.loop == (if n.s.loop.Freeing? then Shutting(u) else Idle)
            && Stream(n'.out, u) == Stream(n.out, u) + Endpoint.Proceed(n.s).out
            && n'.hist[u].peer == n.hist[u].peer
            && n'.s.heap[u].direction == n.s.heap[u].direction
            && OthersSame(n, n', u)
  {
    assert |n.s.table| % TWO32 == |n.s.table|;
    assert AtStage(n.s.loop, u, View(n, u));
    var n' := ProceedStep(n);
    var ms := Endpoint.Proceed(n.s).out;
    forall w | 0 <= w < |n.s.heap| && w != u ensures Live(n'.s, w) == Live(n.s, w) {
      assert n'.s.heap[w] == n.s.heap[w];
    }
    forall w | 0 <= w < |n.s.heap| ensures Stream(n'.out, w) == Stream(n.out, w) + if u == w then ms else [] {
      StreamTag(n.out, ms, u, w);
    }
  }

  lemma ProceedKeeps(n: Net)
    requires Inv(n) && Enabled(n, Proceed)
    ensures Inv(Next(n, Proceed))
  {
    var n', u := Next(n, Proceed), n.l.s.loop.u;
    ProceedView(n.l, u);
    ProceedJoined(n, n', u);
    LoopPaired(n, u);
    ProceedStage(n.l, n'.l, u);
    Isolation(n, n', u, n.l.hist[u].peer.value);
    hide Joined, Stream, Next;
    StagedKeeps(n.l, n'.l, u);
  }

  /** The channel that the loop is at has a peer. */
  lemma LoopPaired(n: Net, u: nat)
    requires Inv(n) && !n.l.s.loop.Idle? && u == n.l.s.loop.u
    ensures n.l.hist[u].peer.Some? && Joined(n.l, n.r, u, n.l.hist[u].peer.value)
    ensures AtStage(n.l.s.loop, u, View(n.l, u))
  {
    assert ChannelOk(n.l, n.r, u) && AtStage(n.l.s.loop, u, View(n.l, u));
  }

  /** The channel that the loop is at moves on to its next stage. */
  lemma ProceedStage(n: Side, n': Side, u: nat)
    requires SideOk(n) && SideOk(n') && !n.s.loop.Idle? && u == n.s.loop.u < |n.s.heap| == |n'.s.heap|
    requires AtStage(n.s.loop, u, View(n, u)) && Link.Local(View(n, u))
    requires View(n', u) == Proceeded(n.s.loop, View(n, u))
    requires n'.s.loop == if n.s.loop.Freeing? then Shutting(u) else Idle
    ensures AtStage(n'.s.loop, u, View(n', u))
  {
    hide SideOk;
  }

  lemma ProceedJoined(n: Net, n': Net, u: nat)
    requires Inv(n) && Enabled(n, Proceed) && n' == Next(n, Proceed) && Ok(n') && u == n.l.s.loop.u < |n.l.s.heap|
    requires |n'.l.s.heap| == |n.l.s.heap|
    requires View(n'.l, u) == Proceeded(n.l.s.loop, View(n.l, u))
    requires Stream(n'.l.out, u) == Stream(n.l.out, u) + Endpoint.Proceed(n.l.s).out
    requires n'.l.hist[u].peer == n.l.hist[u].peer
    requires n'.l.s.heap[u].direction == n.l.s.heap[u].direction
    ensures n.l.hist[u].peer.Some?
    ensures Joined(n.l, n.r, u, n.l.hist[u].peer.value) && Joined(n'.l, n'.r, u, n.l.hist[u].peer.value)
  {
    LoopPaired(n, u);
    var v := n.l.hist[u].peer.value;
    var s, s', r := View(n.l, u), View(n'.l, u), View(n.r, v);
    var q, b := Stream(n.l.out, u), Stream(n.r.out, v);
    var outbound := n.l.s.heap[u].direction.Outbound?;
    NothingMore(q);
    hide Link.Inv, Next, Stream, Live, SideOk, Linked, Staged;
    match n.l.s.loop
    case Confirming(_) => Link.ConfirmKeeps(s, s', r, q, b, outbound);
    case Freeing(_) => Link.FreeKeeps(s, s', r, q, b, outbound);
    case Shutting(_) => Link.ShutKeeps(s, s', r, q, b, outbound);
  }

  lemma NextKeeps(n: Net, a: Action)
    requires Inv(n) && Enabled(n, a) && !Stale(n, a)
    ensures Inv(Next(n, a))
  {
    match a
    case OpenCall => OpenKeeps(n);
    case Request(u) => RequestKeeps(n, u);
    case Call(u, op) => CallKeeps(n, u, op);
    case Receive => if n.r.out[0].msg.Open? { AcceptKeeps(n); } else { HandleKeeps(n); }
    case Proceed => ProceedKeeps(n);
    case Fail => FailKeeps(n);
  }

  predicate StaleTurn(n: Net, t: Turn) {
    match t.who
    case Left => Stale(n, t.action)
    case Right => Stale(Swap(n), t.action)
  }

  /** Every turn of either side keeps the invariant, but for a stale one. */
  lemma TurnKeeps(n: Net, t: Turn)
    requires Inv(n) && MayTurn(n, t) && !StaleTurn(n, t)
    ensures Inv(Take(n, t))
  {
    match t.who
    case Left => NextKeeps(n, t.action);
    case Right => NextKeeps(Swap(n), t.action);
  }
}
