/**
 Whole runs told from the outside: what a side has put on its wire, what each channel was handed, what the
 calls of a run emitted and returned. None of it mentions the history that the invariants carry; the
 history is shown to say the same.
 */
module Trace {
  import opened Wrappers
  import opened Wire
  import opened Endpoint
  import opened Network
  import opened Runs
  import Link
  import Table

  // ---------------------------------------------------------------- one turn of the left side

  /** The packets it puts on the wire. */
  function Emits(n: Net, a: Action): seq<Packet>
    requires Network.Ok(n) && Enabled(n, a)
  {
    match a
    case OpenCall => []
    case Request(u) => Tag([OpenRequest(n.l.s.heap[u])], u)
    case Call(u, op) => Tag(Apply(n.l.s.heap[u], op).out, u)
    case Receive => Tag(LoopStep(n.l.s, n.r.out[0].msg).out, Target(n.l.s, n.r.out[0].msg))
    case Proceed => Tag(Endpoint.Proceed(n.l.s).out, n.l.s.loop.u)
    case Fail => []
  }

  /** The message it hands to channel u. */
  function Hands(n: Net, a: Action, u: nat): seq<Message>
    requires Network.Ok(n) && Enabled(n, a)
  {
    if a.Receive? && !n.r.out[0].msg.Open? && Table.Get(n.l.s.table, n.r.out[0].msg.channelId) == Some(u) then
      [n.r.out[0].msg]
    else []
  }

  /** How often it runs `close` on channel u. */
  function Shuts(n: Net, a: Action, u: nat): nat
    requires Network.Ok(n) && Enabled(n, a)
  {
    match a
    case Proceed => if n.l.s.loop == Shutting(u) then 1 else 0
    case Fail => if Some(u) in n.l.s.table then 1 else 0
    case Receive =>
      var r := OnePacket(n.l.s, n.r.out[0].msg);
      if r.err.Some? && Some(u) in r.s.table then 1 else 0
    case _ => 0
  }

  /** What a call of a user on channel u comes to, when the turn is one. */
  function Called(n: Net, a: Action, u: nat): Effect
    requires Network.Ok(n) && Enabled(n, a) && u < |n.l.s.heap|
  {
    if a.Call? && a.u == u then Apply(n.l.s.heap[u], a.op) else Effect(n.l.s.heap[u], [], [], false)
  }

  /** The chunk for which an iteration of `Write` on channel c reserves credit, when the call is one. */
  function Takes(c: Chan, op: UserOp): multiset<seq<byte>> {
    if op.Write? && !c.winClosed then multiset{op.data[..Chunk(c, op.data)]} else multiset{}
  }

  // ---------------------------------------------------------------- a whole run

  function Payloads(out: seq<Message>): seq<byte> {
    if out == [] then [] else Payload(out[0]) + Payloads(out[1..])
  }

  /** All that a side has put on its wire, in order. */
  function OnWire(ts: seq<Turn>, who: Who): seq<Packet>
    requires Legal(ts)
    decreases |ts|
  {
    if ts == [] then []
    else
      var before, t := ts[..|ts| - 1], ts[|ts| - 1];
      assert MayFollow(before, t);
      OnWire(before, who) + if t.who == who then Emits(Seen(After(before), who), t.action) else []
  }

  /** What has happened to a channel: the messages handed to it, the bytes its calls have put on the wire and
      returned, how often `close` ran, the chunks that iterations of `Write` have reserved, and how much calls
      of `Read` have given back to the window. */
  datatype Past = Past(
    handed: seq<Message>,
    written: seq<byte>,
    returned: seq<byte>,
    shuts: nat,
    taken: multiset<seq<byte>>,
    settled: nat)

  const NO_PAST := Past([], [], [], 0, multiset{}, 0)

  function Later(p: Past, n: Net, a: Action, u: nat): Past
    requires Network.Ok(n) && Enabled(n, a)
  {
    if u < |n.l.s.heap| then
      var f := Called(n, a, u);
      Past(p.handed + Hands(n, a, u), p.written + Payloads(f.out), p.returned + f.bytes, p.shuts + Shuts(n, a, u),
           p.taken + (if a.Call? && a.u == u then Takes(n.l.s.heap[u], a.op) else multiset{}),
           p.settled + if a.Call? && a.u == u && a.op.Adjust? then a.op.n else 0)
    else p
  }

  /** The past of channel u of one side. */
  function PastOf(ts: seq<Turn>, who: Who, u: nat): Past
    requires Legal(ts)
    decreases |ts|
  {
    if ts == [] then NO_PAST
    else
      var before, t := ts[..|ts| - 1], ts[|ts| - 1];
      assert MayFollow(before, t);
      var p := PastOf(before, who, u);
      if t.who == who then Later(p, Seen(After(before), who), t.action, u) else p
  }

  // ---------------------------------------------------------------- the history is faithful

  /** A history h says what q, the messages sent, and p say. */
  predicate Recorded(h: Link.Hist, q: seq<Message>, p: Past) {
    var t, g := Link.Total(q), Link.Total(p.handed);
    && h.sent == t.data == p.written
    && h.closes == t.closes
    && h.mark == (if t.marked then Some(t.before) else None)
    && h.read == p.returned
    && h.gotMark == g.marked
    && h.gotClose == (g.closes > 0)
    && h.closeRuns == p.shuts
  }

  /** The chunks that data messages carry. */
  function Chunks(q: seq<Message>): multiset<seq<byte>> {
    if q == [] then multiset{} else (if q[0].Data? then multiset{q[0].data} else multiset{}) + Chunks(q[1..])
  }

  /** What is reserved has been taken, and is not on the wire yet. */
  predicate Reserves(h: Link.Hist, q: seq<Message>, p: Past) {
    p.taken == Chunks(q) + multiset(h.reserved)
  }

  /** What was returned was given back, or is still owed. */
  predicate Owes(h: Link.Hist, p: Past) {
    |p.returned| == p.settled + Link.Bytes(h.owed)
  }

  /** A channel of `Open` has still to send its request when there is none on the wire. */
  predicate Asks(c: Chan, h: Link.Hist, q: seq<Message>) {
    h.requesting <==> c.direction.Outbound? && forall m | m in q :: !m.Open?
  }

  /** What holds of users is what the wire and the calls say. */
  predicate Placed(c: Chan, h: Link.Hist, q: seq<Message>, p: Past) {
    Reserves(h, q, p) && Owes(h, p) && Asks(c, h, q)
  }

  /** The flags of a channel c say what q and p say: shut means that `close` ran, and on a channel that is
      not shut `sentClose` means that a Close is on the wire. */
  predicate Flagged(c: Chan, q: seq<Message>, p: Past) {
    && (c.winClosed <==> p.shuts > 0)
    && (c.winClosed ==> c.sentClose)
    && (!c.winClosed ==> (c.sentClose <==> Link.Total(q).closes > 0))
  }

  /** A channel that does not exist yet has neither sent anything nor a past. */
  predicate Told(e: Side, u: nat, q: seq<Message>, p: Past)
    requires |e.hist| == |e.s.heap|
  {
    if u < |e.s.heap| then
      Recorded(e.hist[u], q, p) && Placed(e.s.heap[u], e.hist[u], q, p) && Flagged(e.s.heap[u], q, p)
    else q == [] && p == NO_PAST
  }

  /** What one message adds to a tally. */
  lemma OfMessage(m: Message)
    ensures var t := Link.Of(m);
            && t.data == t.before == Payload(m)
            && t.closes == (if m.Close? then 1 else 0)
            && t.marked == (m.Eof? || m.Close?)
            && (t.marked ==> Payload(m) == [])
  {
  }

  lemma Sends(h: Link.Hist, q: seq<Message>, p: Past, m: Message)
    requires Recorded(h, q, p)
    ensures Recorded(Link.Note(h, m), q + [m], p.(written := p.written + Payload(m)))
    ensures Link.Total(q + [m]).closes == Link.Total(q).closes + if m.Close? then 1 else 0
  {
    hide Link.Total, Link.Of, Payload;
    Link.TotalAppend(q, m);
    OfMessage(m);
    Link.UnmarkedBefore(q);
    var t := Link.Total(q);
    assert t.before + [] == t.before;
  }

  /** At most one message sent. */
  lemma SendsAny(h: Link.Hist, q: seq<Message>, p: Past, ms: seq<Message>)
    requires Recorded(h, q, p) && |ms| <= 1
    ensures Recorded(Link.NoteAll(h, ms), q + ms, p.(written := p.written + Payloads(ms)))
    ensures Link.Total(q + ms).closes == Link.Total(q).closes + if ms != [] && ms[0].Close? then 1 else 0
  {
    Link.NoteOne(h, ms);
    if ms == [] {
      assert q + ms == q && p.written + [] == p.written;
    } else {
      assert ms == [ms[0]] && Payloads(ms) == Payload(ms[0]) + Payloads([]) && Payloads([]) == [];
      assert Payloads(ms) == Payload(ms[0]);
      hide Recorded, Link.Total, Link.Note, Payloads;
      Sends(h, q, p, ms[0]);
    }
  }

  lemma {:induction false} ChunksJoin(a: seq<Message>, b: seq<Message>)
    ensures Chunks(a + b) == Chunks(a) + Chunks(b)
  {
    if a == [] {
      assert a + b == b;
    } else {
      assert (a + b)[0] == a[0] && (a + b)[1..] == a[1..] + b;
      ChunksJoin(a[1..], b);
      Together(if a[0].Data? then multiset{a[0].data} else multiset{}, Chunks(a[1..]), Chunks(b));
    }
  }

  lemma Together<T>(a: multiset<T>, b: multiset<T>, c: multiset<T>)
    ensures (a + b) + c == a + (b + c)
  {
  }

  lemma ChunksOne(ms: seq<Message>)
    requires |ms| <= 1
    ensures Chunks(ms) == if ms != [] && ms[0].Data? then multiset{ms[0].data} else multiset{}
  {
    if ms != [] { assert ms == [ms[0]] && ms[1..] == []; }
  }

  lemma WithoutOne(chunks: seq<seq<byte>>, k: nat)
    requires k < |chunks|
    ensures multiset(chunks) == multiset{chunks[k]} + multiset(Link.Without(chunks, k))
  {
    assert chunks == chunks[..k] + [chunks[k]] + chunks[k + 1..];
  }

  /** A call moves chunks from those reserved to the wire. */
  lemma CallTakes(c: Chan, h: Link.Hist, op: UserOp)
    requires Link.MayApply(c, h, op)
    ensures |Apply(c, op).out| <= 1
    ensures multiset(h.reserved) + Takes(c, op) == Chunks(Apply(c, op).out) + multiset(Link.ReservedAfter(c, h, op))
  {
    hide Chunks;
    ChunksOne(Apply(c, op).out);
    if op.Encode? { WithoutOne(h.reserved, op.k); }
  }

  /** Messages sent, and chunks reserved, as the account of the chunks goes on. */
  lemma ReservesNext(h: Link.Hist, h': Link.Hist, q: seq<Message>, out: seq<Message>, p: Past,
                     more: multiset<seq<byte>>)
    requires Reserves(h, q, p)
    requires multiset(h.reserved) + more == Chunks(out) + multiset(h'.reserved)
    ensures Reserves(h', q + out, p.(taken := p.taken + more))
  {
    hide Chunks;
    ChunksJoin(q, out);
    Together(Chunks(q), multiset(h.reserved), more);
    Together(Chunks(q), Chunks(out), multiset(h'.reserved));
  }

  /** A message without data. */
  lemma ReservesStays(h: Link.Hist, h': Link.Hist, q: seq<Message>, out: seq<Message>, p: Past)
    requires Reserves(h, q, p) && h'.reserved == h.reserved && |out| <= 1 && (out != [] ==> !out[0].Data?)
    ensures Reserves(h', q + out, p)
  {
    ChunksOne(out);
    assert p.taken + multiset{} == p.taken;
    ReservesNext(h, h', q, out, p, multiset{});
  }

  /** A message that is neither data nor an open request. */
  lemma PlacedStays(c: Chan, c': Chan, h: Link.Hist, h': Link.Hist, q: seq<Message>, out: seq<Message>, p: Past)
    requires Placed(c, h, q, p) && c'.direction == c.direction
    requires h'.reserved == h.reserved && h'.owed == h.owed && h'.requesting == h.requesting
    requires |out| <= 1 && (out != [] ==> !out[0].Data? && !out[0].Open?)
    ensures Placed(c', h', q + out, p)
  {
    hide Reserves, Link.Bytes;
    ReservesStays(h, h', q, out, p);
  }

  /** What is read is owed until it is given back. */
  lemma CallOwes(c: Chan, h: Link.Hist, op: UserOp, p: Past)
    requires Owes(h, p) && Link.MayApply(c, h, op)
    ensures Owes(Link.Stepped(h, c, op), p.(returned := p.returned + Apply(c, op).bytes,
                                            settled := p.settled + if op.Adjust? then op.n else 0))
  {
    match op
    case Read(len) => Link.BytesAppend(h.owed, TakeBytes(c, len).bytes);
    case Adjust(k, _) => Link.BytesWithout(h.owed, k);
    case _ =>
  }

  lemma IsHanded(h: Link.Hist, q: seq<Message>, p: Past, m: Message)
    requires Recorded(h, q, p)
    ensures Recorded(Link.NoteHandled(h, m), q, p.(handed := p.handed + [m]))
  {
    Link.TotalAppend(p.handed, m);
  }

  /** What handling a message does to the flags, and how little it puts on the wire. */
  lemma HandleFlags(c: Chan, m: Message)
    ensures var r := Handle(c, m);
            && |r.out| <= 1 && r.c.winClosed == c.winClosed
            && (r.c.sentClose <==> c.sentClose || r.out != [])
            && (r.out != [] ==> r.out[0].Close? && !c.sentClose)
            && Payloads(r.out) == []
  {
    hide Handle;
    HandleReplies(c, m);
    HandleLeaves(c, m);
    assert Payloads([]) == [] && Payloads([Message.Close(c.remoteId)]) == [] + Payloads([]);
  }

  /** The only reply is the one to a Close. */
  lemma HandleReplies(c: Chan, m: Message)
    ensures Handle(c, m).out == if m.Close? && !c.sentClose then [Message.Close(c.remoteId)] else []
  {
    match m
    case OpenConfirm(_, _, _, _) =>
    case WindowAdjust(_, _) =>
    case Data(_, _, _) =>
    case _ =>
  }

  lemma HandleLeaves(c: Chan, m: Message)
    ensures var c' := Handle(c, m).c;
            c'.winClosed == c.winClosed && (c'.sentClose <==> c.sentClose || m.Close?)
  {
    match m
    case OpenConfirm(_, _, _, _) =>
    case WindowAdjust(_, _) =>
    case Data(_, _, _) =>
    case _ =>
  }

  /** What a call does to the flags, and when it puts something on the wire behind a Close. */
  lemma CallFlags(c: Chan, op: UserOp)
    requires c.winClosed ==> c.sentClose
    ensures var f := Apply(c, op);
            && |f.out| <= 1 && f.c.winClosed == c.winClosed
            && (f.c.sentClose <==> c.sentClose || (f.out != [] && f.out[0].Close?))
            && (c.sentClose ==> (f.out != [] <==> op.Encode?))
            && (op.Encode? ==> f.out != [] && f.out[0].Data?)
  {
  }

  // ---------------------------------------------------------------- every turn is recorded

  /** The right side is as it was, but for the peer of a channel and what was taken off its wire. */
  predicate Aside(n: Net, n': Net) {
    && n'.r.s == n.r.s && |n'.r.hist| == |n.r.hist|
    && forall v | 0 <= v < |n.r.hist| :: n'.r.hist[v] == n.r.hist[v].(peer := n'.r.hist[v].peer)
  }

  /** A turn of the left side, as the story of its channel u goes on. */
  predicate GoesOn(n: Net, a: Action, u: nat, q: seq<Message>, p: Past)
    requires Network.Ok(n) && Enabled(n, a) && Network.Ok(Next(n, a))
  {
    var n' := Next(n, a);
    && n'.l.out == n.l.out + Emits(n, a)
    && Aside(n, n')
    && Told(n'.l, u, q + Stream(Emits(n, a), u), Later(p, n, a, u))
  }

  lemma StreamOfTag(ms: seq<Message>, w: nat, u: nat)
    requires |ms| <= 1
    ensures Stream(Tag(ms, w), u) == if w == u then ms else []
  {
    StreamTag([], ms, w, u);
    assert [] + Tag(ms, w) == Tag(ms, w);
  }

  /** A turn that leaves a channel alone. */
  lemma Rests(p: Past, q: seq<Message>)
    ensures Past(p.handed + [], p.written + [], p.returned + [], p.shuts + 0, p.taken + multiset{}, p.settled + 0) == p
    ensures q + [] == q
  {
  }

  /** A channel that has sent nothing. */
  lemma Announced(c: Chan, h: Link.Hist)
    requires h == Link.NEW_HIST.(peer := h.peer, requesting := c.direction.Outbound?) && !c.winClosed && !c.sentClose
    ensures Recorded(h, [], NO_PAST) && Placed(c, h, [], NO_PAST) && Flagged(c, [], NO_PAST)
  {
    assert Link.Total([]) == Link.NOTHING;
    assert Reserves(h, [], NO_PAST) && Owes(h, NO_PAST);
    hide Reserves, Owes, Link.Total;
  }

  /** A turn of `Open`, which hands over, returns and reserves nothing. */
  lemma OpenLater(n: Net, a: Action, u: nat, p: Past)
    requires Network.Ok(n) && Enabled(n, a) && (a.OpenCall? || a.Request?)
    ensures Later(p, n, a, u) == p
  {
    Rests(p, []);
    NothingMore(p.written);
    assert Payloads([]) == [];
  }

  lemma OpenTold(n: Side, u: nat, q: seq<Message>, p: Past)
    requires SideOk(n) && Told(n, u, q, p)
    ensures |OpenStep(n).hist| == |OpenStep(n).s.heap| && Told(OpenStep(n), u, q, p)
  {
    hide Recorded, Flagged, Placed;
    if u == |n.s.heap| { Announced(OutboundChan(NextId(n.s)), OPENING); }
  }

  lemma OpenGoesOn(n: Net, u: nat, q: seq<Message>, p: Past)
    requires Network.Ok(n) && Enabled(n, OpenCall) && Network.Ok(Next(n, OpenCall)) && Told(n.l, u, q, p)
    ensures GoesOn(n, OpenCall, u, q, p)
  {
    NothingMore(n.l.out);
    NothingMore(q);
    assert Stream([], u) == [];
    OpenLater(n, OpenCall, u, p);
    OpenTold(n.l, u, q, p);
    var n' := Next(n, OpenCall);
    assert n'.l == OpenStep(n.l) && n'.r == n.r && n'.l.out == n.l.out;
    hide Told, Stream, Later, Next, OpenStep, SideOk;
  }

  /** The request of a channel. */
  lemma RequestTold(n: Side, u: nat, q: seq<Message>, p: Past)
    requires SideOk(n) && u < |n.s.heap| && Told(n, u, q, p) && n.s.heap[u].direction.Outbound?
    ensures Told(RequestStep(n, u), u, q + [OpenRequest(n.s.heap[u])], p)
  {
    var m, h := OpenRequest(n.s.heap[u]), n.hist[u].(requesting := false);
    RequestPlaced(n.s.heap[u], n.hist[u], h, q, p, m);
    assert Recorded(h, q, p);
    Sends(h, q, p, m);
    NoteRequest(h, m);
    NothingMore(p.written);
    hide Recorded, Placed, Link.Total, Link.Note;
  }

  lemma NoteRequest(h: Link.Hist, m: Message)
    requires m.Open?
    ensures Link.Note(h, m) == h && Payload(m) == []
  {
    NothingMore(h.sent);
  }

  lemma RequestPlaced(c: Chan, h: Link.Hist, h': Link.Hist, q: seq<Message>, p: Past, m: Message)
    requires Placed(c, h, q, p) && h' == h.(requesting := false) && m.Open? && c.direction.Outbound?
    ensures Placed(c, h', q + [m], p)
  {
    hide Reserves, Link.Bytes;
    ReservesStays(h, h', q, [m], p);
    assert m in q + [m];
  }

  lemma RequestGoesOn(n: Net, w: nat, u: nat, q: seq<Message>, p: Past)
    requires Network.Ok(n) && Enabled(n, Request(w)) && Network.Ok(Next(n, Request(w))) && Told(n.l, u, q, p)
    ensures GoesOn(n, Request(w), u, q, p)
  {
    StreamOfTag([OpenRequest(n.l.s.heap[w])], w, u);
    NothingMore(q);
    OpenLater(n, Request(w), u, p);
    var n' := Next(n, Request(w));
    assert n'.l == RequestStep(n.l, w) && n'.r == n.r && n'.l.out == n.l.out + Emits(n, Request(w));
    if u == w {
      assert Asks(n.l.s.heap[u], n.l.hist[u], q);
      RequestTold(n.l, u, q, p);
    }
    hide Recorded, Flagged, Placed, Stream, Next, Later;
  }

  lemma CallPlaced(n: Side, u: nat, op: UserOp, q: seq<Message>, p: Past)
    requires SideOk(n) && u < |n.s.heap| && Placed(n.s.heap[u], n.hist[u], q, p)
    requires Link.MayApply(n.s.heap[u], n.hist[u], op)
    ensures var f := Apply(n.s.heap[u], op);
            Placed(CallStep(n, u, op).s.heap[u], CallStep(n, u, op).hist[u], q + f.out,
                   p.(written := p.written + Payloads(f.out), returned := p.returned + f.bytes,
                      taken := p.taken + Takes(n.s.heap[u], op),
                      settled := p.settled + if op.Adjust? then op.n else 0))
  {
    var c, h := n.s.heap[u], n.hist[u];
    var c', h', f := CallStep(n, u, op).s.heap[u], CallStep(n, u, op).hist[u], Apply(c, op);
    CallTakes(c, h, op);
    CallOwes(c, h, op, p);
    Link.NoteOne(Link.Stepped(h, c, op), f.out);
    assert h'.reserved == Link.ReservedAfter(c, h, op) && h'.owed == Link.Stepped(h, c, op).owed;
    assert h'.requesting == h.requesting;
    NoneOpens(c, op, Eof(0));
    CallShape(c, op);
    hide CallStep, Apply, Takes, Chunks, Link.Bytes, Link.ReservedAfter, Link.Stepped;
    ReservesNext(h, h', q, f.out, p, Takes(c, op));
  }

  lemma CallRecorded(n: Side, u: nat, op: UserOp, q: seq<Message>, p: Past)
    requires SideOk(n) && u < |n.s.heap| && Recorded(n.hist[u], q, p) && Flagged(n.s.heap[u], q, p)
    ensures var f := Apply(n.s.heap[u], op);
            var p' := p.(written := p.written + Payloads(f.out), returned := p.returned + f.bytes);
            && |f.out| <= 1
            && Recorded(CallStep(n, u, op).hist[u], q + f.out, p')
            && Flagged(CallStep(n, u, op).s.heap[u], q + f.out, p')
  {
    var f := Apply(n.s.heap[u], op);
    CallFlags(n.s.heap[u], op);
    var h := Link.Stepped(n.hist[u], n.s.heap[u], op);
    var p' := p.(returned := p.returned + f.bytes);
    assert Recorded(h, q, p');
    hide Recorded, Apply, Link.Total, Link.Stepped, Payloads;
    SendsAny(h, q, p', f.out);
  }

  /** A call of a user on channel u. */
  lemma CallTold(n: Side, u: nat, op: UserOp, q: seq<Message>, p: Past)
    requires SideOk(n) && u < |n.s.heap| && Told(n, u, q, p) && Link.MayApply(n.s.heap[u], n.hist[u], op)
    ensures var f := Apply(n.s.heap[u], op);
            && |f.out| <= 1
            && Told(CallStep(n, u, op), u, q + f.out,
                    p.(written := p.written + Payloads(f.out), returned := p.returned + f.bytes,
                       taken := p.taken + Takes(n.s.heap[u], op),
                       settled := p.settled + if op.Adjust? then op.n else 0))
  {
    hide Apply, Link.Total, Payloads, Takes, Placed, Link.UserHist;
    var f := Apply(n.s.heap[u], op);
    CallRecorded(n, u, op, q, p);
    CallPlaced(n, u, op, q, p);
  }

  /** A call of a user on another channel. */
  lemma OtherCallTold(n: Side, w: nat, op: UserOp, u: nat, q: seq<Message>, p: Past)
    requires SideOk(n) && w < |n.s.heap| && u != w && Told(n, u, q, p)
    ensures |CallStep(n, w, op).hist| == |CallStep(n, w, op).s.heap| && Told(CallStep(n, w, op), u, q, p)
  {
  }

  lemma CallLater(n: Net, w: nat, op: UserOp, u: nat, p: Past)
    requires Network.Ok(n) && Enabled(n, Call(w, op))
    ensures var f := Apply(n.l.s.heap[w], op);
            Later(p, n, Call(w, op), u) ==
            if u == w then
              p.(written := p.written + Payloads(f.out), returned := p.returned + f.bytes,
                 taken := p.taken + Takes(n.l.s.heap[w], op),
                 settled := p.settled + if op.Adjust? then op.n else 0)
            else p
  {
    hide Apply, Takes;
    Rests(p, []);
    assert p.written + Payloads([]) == p.written && p.handed + [] == p.handed;
  }

  lemma CallGoesOn(n: Net, w: nat, op: UserOp, u: nat, q: seq<Message>, p: Past)
    requires Network.Ok(n) && Enabled(n, Call(w, op)) && Network.Ok(Next(n, Call(w, op))) && Told(n.l, u, q, p)
    ensures GoesOn(n, Call(w, op), u, q, p)
  {
    var f := Apply(n.l.s.heap[w], op);
    CallShape(n.l.s.heap[w], op);
    StreamOfTag(f.out, w, u);
    CallLater(n, w, op, u, p);
    var l := CallStep(n.l, w, op);
    assert Next(n, Call(w, op)).l == l && l.out == n.l.out + Emits(n, Call(w, op));
    if u == w { CallTold(n.l, u, op, q, p); } else { OtherCallTold(n.l, w, op, u, q, p); }
    Rests(p, q);
    hide Apply, Told, Later, Stream, CallStep;
  }

  /** The next step of handling an open request or a Close. */
  lemma ProceedTold(n: Side, u: nat, q: seq<Message>, p: Past)
    requires SideOk(n) && !n.s.loop.Idle? && Told(n, u, q, p)
    ensures |ProceedStep(n).hist| == |ProceedStep(n).s.heap| == |n.s.heap|
    ensures Told(ProceedStep(n), u, q + (if u == n.s.loop.u then Endpoint.Proceed(n.s).out else []),
                 p.(shuts := p.shuts + if n.s.loop == Shutting(u) then 1 else 0))
  {
    assert q + [] == q;
    if n.s.loop == Confirming(u) {
      ConfirmTold(n, u, q, p);
    }
  }

  lemma ConfirmTold(n: Side, u: nat, q: seq<Message>, p: Past)
    requires SideOk(n) && n.s.loop == Confirming(u) && Told(n, u, q, p)
    ensures Endpoint.Proceed(n.s).out == [Confirm(n.s.heap[u])]
    ensures Told(ProceedStep(n), u, q + [Confirm(n.s.heap[u])], p)
  {
    hide Recorded, Placed, Link.Total;
    Sends(n.hist[u], q, p, Confirm(n.s.heap[u]));
    var c, h := n.s.heap[u], n.hist[u];
    PlacedStays(c, c, h, Link.Note(h, Confirm(c)), q, [Confirm(c)], p);
    assert p.written + [] == p.written;
  }

  /** A turn that shuts channels, at most. */
  lemma ShutLater(n: Net, a: Action, u: nat, p: Past)
    requires Network.Ok(n) && Enabled(n, a) && (a.Proceed? || a.Fail?)
    ensures Later(p, n, a, u) == if u < |n.l.s.heap| then p.(shuts := p.shuts + Shuts(n, a, u)) else p
  {
    Rests(p, []);
    assert p.written + Payloads([]) == p.written;
  }

  lemma ProceedGoesOn(n: Net, u: nat, q: seq<Message>, p: Past)
    requires Network.Ok(n) && Enabled(n, Proceed) && Network.Ok(Next(n, Proceed)) && Told(n.l, u, q, p)
    ensures GoesOn(n, Proceed, u, q, p)
  {
    ProceedTold(n.l, u, q, p);
    ShutLater(n, Proceed, u, p);
    Rests(p, q);
    StreamOfTag(Endpoint.Proceed(n.l.s).out, n.l.s.loop.u, u);
    var n' := Next(n, Proceed);
    assert n'.l.out == n.l.out + Emits(n, Proceed) && n'.r == n.r && n'.l == ProceedStep(n.l);
    assert u >= |n.l.s.heap| ==> u != n.l.s.loop.u;
    hide Told, Later, Stream, Next, ProceedStep;
  }

  /** The end of a session's loop. */
  lemma FailTold(n: Side, u: nat, q: seq<Message>, p: Past, x: Error)
    requires SideOk(n) && Told(n, u, q, p)
    ensures |FailSide(n, x).hist| == |FailSide(n, x).s.heap| == |n.s.heap|
    ensures Told(FailSide(n, x), u, q, p.(shuts := p.shuts + if u < |n.s.heap| && Some(u) in n.s.table then 1 else 0))
  {
  }

  lemma FailIs(n: Net)
    requires Network.Ok(n) && Enabled(n, Fail)
    ensures Next(n, Fail) == n.(l := FailSide(n.l, Transport)) && Emits(n, Fail) == []
    ensures Next(n, Fail).l.out == n.l.out == n.l.out + []
  {
  }

  lemma FailGoesOn(n: Net, u: nat, q: seq<Message>, p: Past)
    requires Network.Ok(n) && Enabled(n, Fail) && Network.Ok(Next(n, Fail)) && Told(n.l, u, q, p)
    ensures GoesOn(n, Fail, u, q, p)
  {
    FailIs(n);
    hide Next, Emits;
    FailTold(n.l, u, q, p, Transport);
    ShutLater(n, Fail, u, p);
    Rests(p, q);
    hide Told, FailSide, Later, Network.Ok;
  }

  /** A side that has queued a channel. */
  function AcceptedSide(n: Side, p: Packet): Side
    requires p.msg.Open?
  {
    Side(HandleOpen(n.s, p.msg).s, n.hist + [Link.NEW_HIST.(peer := Some(p.src))], n.out)
  }

  lemma AcceptIs(n: Net)
    requires Network.Ok(n) && Enabled(n, Receive) && n.r.out[0].msg.Open?
    ensures var n' := Next(n, Receive);
            && n'.l == AcceptedSide(n.l, n.r.out[0]) && n'.l.out == n.l.out == n.l.out + [] && Aside(n, n')
            && Emits(n, Receive) == []
    ensures GoodPacketSize(n.r.out[0].msg.maxPacketSize)
  {
    assert n.r.out[0] in n.r.out;
  }

  lemma AcceptTold(n: Side, x: Packet, u: nat, q: seq<Message>, p: Past)
    requires SideOk(n) && x.msg.Open? && GoodPacketSize(x.msg.maxPacketSize) && Told(n, u, q, p)
    ensures |AcceptedSide(n, x).hist| == |AcceptedSide(n, x).s.heap| && Told(AcceptedSide(n, x), u, q, p)
  {
    hide Recorded, Flagged, Placed;
    if u == |n.s.heap| {
      Announced(InboundChan(x.msg, NextId(n.s)), Link.NEW_HIST.(peer := Some(x.src)));
    }
  }

  lemma AcceptGoesOn(n: Net, u: nat, q: seq<Message>, p: Past)
    requires Network.Ok(n) && Enabled(n, Receive) && Network.Ok(Next(n, Receive)) && Told(n.l, u, q, p)
    requires n.r.out[0].msg.Open?
    ensures GoesOn(n, Receive, u, q, p)
  {
    AcceptIs(n);
    Rests(p, q);
    NothingMore(p.written);
    AcceptTold(n.l, n.r.out[0], u, q, p);
    assert Stream([], u) == [] && Payloads([]) == [];
    hide Told, AcceptedSide, Next, Emits, Stream, Payloads;
  }

  lemma HandRecorded(n: Side, u: nat, m: Message, q: seq<Message>, p: Past)
    requires SideOk(n) && u < |n.s.heap| && Recorded(n.hist[u], q, p) && Flagged(n.s.heap[u], q, p)
    ensures var ms, p' := Handle(n.s.heap[u], m).out, p.(handed := p.handed + [m]);
            && |ms| <= 1
            && Recorded(HandledSide(n, u, m).hist[u], q + ms, p')
            && Flagged(HandledSide(n, u, m).s.heap[u], q + ms, p')
  {
    hide Recorded, Handle, Link.Total, Payloads;
    var r := Handle(n.s.heap[u], m);
    HandleFlags(n.s.heap[u], m);
    var h := Link.NoteHandled(n.hist[u], m);
    IsHanded(n.hist[u], q, p, m);
    SendsAny(h, q, p.(handed := p.handed + [m]), r.out);
    assert p.written + [] == p.written;
  }

  lemma HandPlaced(n: Side, u: nat, m: Message, q: seq<Message>, p: Past)
    requires SideOk(n) && u < |n.s.heap| && Placed(n.s.heap[u], n.hist[u], q, p)
    ensures Placed(HandledSide(n, u, m).s.heap[u], HandledSide(n, u, m).hist[u], q + Handle(n.s.heap[u], m).out,
                   p.(handed := p.handed + [m]))
  {
    hide Handle, Chunks, Payloads;
    var r := Handle(n.s.heap[u], m);
    HandleFlags(n.s.heap[u], m);
    HandleShape(n.s.heap[u], m);
    Link.NoteOne(Link.NoteHandled(n.hist[u], m), r.out);
    PlacedStays(n.s.heap[u], r.c, n.hist[u], HandledSide(n, u, m).hist[u], q, r.out, p);
  }

  /** A message handed to channel u. */
  lemma HandTold(n: Side, u: nat, m: Message, q: seq<Message>, p: Past)
    requires SideOk(n) && u < |n.s.heap| && Told(n, u, q, p)
    ensures var ms := Handle(n.s.heap[u], m).out;
            |ms| <= 1 && Told(HandledSide(n, u, m), u, q + ms, p.(handed := p.handed + [m]))
  {
    hide Recorded, Placed, Flagged, Handle;
    HandRecorded(n, u, m, q, p);
    HandPlaced(n, u, m, q, p);
  }

  /** A message handed to another channel. */
  lemma OtherTold(n: Side, w: nat, m: Message, u: nat, q: seq<Message>, p: Past)
    requires SideOk(n) && w < |n.s.heap| && u != w && Told(n, u, q, p)
    ensures Told(HandledSide(n, w, m), u, q, p)
  {
  }

  /** What the turn that processes a message emits, hands over and shuts. */
  lemma HandFacts(n: Net, m: Message, w: nat, u: nat)
    requires Network.Ok(n) && Enabled(n, Receive) && n.r.out[0].msg == m && !m.Open? && w == Target(n.l.s, m)
    ensures if Table.Get(n.l.s.table, m.channelId).None? then
              && Emits(n, Receive) == [] && Hands(n, Receive, u) == []
              && Shuts(n, Receive, u) == (if Some(u) in n.l.s.table then 1 else 0)
            else
              && w < |n.l.s.heap|
              && var r := Handle(n.l.s.heap[w], m);
                 && Emits(n, Receive) == Tag(r.out, w) && Hands(n, Receive, u) == (if u == w then [m] else [])
                 && Shuts(n, Receive, u) == if r.err.Some? && Some(u) in HandledSide(n.l, w, m).s.table then 1 else 0
  {
  }

  /** The story of a channel when its side hands a message to channel w. */
  lemma HandedTold(n: Side, w: nat, m: Message, u: nat, q: seq<Message>, p: Past)
    requires SideOk(n) && n.s.err.None? && w < |n.s.heap| && Told(n, u, q, p)
    ensures SideOk(HandledSide(n, w, m)) && |HandledSide(n, w, m).s.heap| == |n.s.heap|
    ensures Told(HandledSide(n, w, m), u, q + Stream(Tag(Handle(n.s.heap[w], m).out, w), u),
                 Given(p, u, w, m))
  {
    hide Told, HandledSide, Handle, Stream;
    HandledOk(n, w, m);
    HandleFlags(n.s.heap[w], m);
    StreamOfTag(Handle(n.s.heap[w], m).out, w, u);
    assert q + [] == q && p.handed + [] == p.handed;
    if u == w { HandTold(n, u, m, q, p); } else { OtherTold(n, w, m, u, q, p); }
  }

  lemma ReceiveLater(n: Net, u: nat, p: Past)
    requires Network.Ok(n) && Enabled(n, Receive)
    ensures Later(p, n, Receive, u) ==
            if u < |n.l.s.heap| then
              p.(handed := p.handed + Hands(n, Receive, u), shuts := p.shuts + Shuts(n, Receive, u))
            else p
  {
    hide Hands, Shuts;
    assert p.written + Payloads([]) == p.written && p.returned + [] == p.returned;
  }

  /** The past of channel u when its side has handed a message to channel w. */
  function Given(p: Past, u: nat, w: nat, m: Message): Past {
    p.(handed := p.handed + if u == w then [m] else [])
  }

  /** The past of channel u when its side ends if there was an error. */
  function Ended(p: Past, u: nat, e: Side, err: Option<Error>): Past {
    p.(shuts := p.shuts + if err.Some? && u < |e.s.heap| && Some(u) in e.s.table then 1 else 0)
  }

  /** A side that has handled a message, and ends if that was an error. */
  lemma EndTold(e: Side, u: nat, q: seq<Message>, p: Past, err: Option<Error>)
    requires SideOk(e) && Told(e, u, q, p)
    ensures var l := match err case None => e case Some(x) => FailSide(e, x);
            && |l.hist| == |l.s.heap| == |e.s.heap|
            && Told(l, u, q, Ended(p, u, e, err))
  {
    hide Told, FailSide;
    match err
    case None =>
    case Some(x) => FailTold(e, u, q, p, x);
  }

  /** A message for which there is no channel. */
  lemma LostTells(n: Net, u: nat, q: seq<Message>, p: Past)
    requires Network.Ok(n) && Enabled(n, Receive) && Network.Ok(ReceiveStep(n)) && Told(n.l, u, q, p)
    requires !n.r.out[0].msg.Open? && Table.Get(n.l.s.table, n.r.out[0].msg.channelId).None?
    ensures Told(ReceiveStep(n).l, u, q + Stream(Emits(n, Receive), u), Later(p, n, Receive, u))
  {
    hide ReceiveStep, Emits, Hands, Shuts, Later, Told, FailSide, SideOk, Table.Get, Target;
    var m := n.r.out[0].msg;
    var w := Target(n.l.s, m);
    ReceiveCases(n, n.r.out[0], w);
    HandFacts(n, m, w, u);
    ReceiveLater(n, u, p);
    FailTold(n.l, u, q, p, InvalidChannel(m.channelId));
    Rests(p, q);
  }

  /** What handing a message to channel w comes to for channel u. */
  lemma FoundIs(n: Net, w: nat, u: nat, p: Past)
    requires Network.Ok(n) && Enabled(n, Receive) && !n.r.out[0].msg.Open? && w == Target(n.l.s, n.r.out[0].msg)
    requires Table.Get(n.l.s.table, n.r.out[0].msg.channelId).Some?
    ensures w < |n.l.s.heap|
    ensures var m := n.r.out[0].msg;
            var after, r := HandledSide(n.l, w, m), Handle(n.l.s.heap[w], m);
            && ReceiveStep(n).l == (match r.err case None => after case Some(x) => FailSide(after, x))
            && Emits(n, Receive) == Tag(r.out, w)
            && Later(p, n, Receive, u) == Ended(Given(p, u, w, m), u, after, r.err)
  {
    var m := n.r.out[0].msg;
    NothingMore(p.handed);
    ReceiveCases(n, n.r.out[0], w);
    HandFacts(n, m, w, u);
    ReceiveLater(n, u, p);
    hide ReceiveStep, Emits, Hands, Shuts, Later, Handle, FailSide, HandledSide, SideOk, Table.Get, Target;
  }

  /** A message handed to a channel. */
  lemma FoundTells(n: Net, u: nat, q: seq<Message>, p: Past)
    requires Network.Ok(n) && Enabled(n, Receive) && Network.Ok(ReceiveStep(n)) && Told(n.l, u, q, p)
    requires !n.r.out[0].msg.Open? && Table.Get(n.l.s.table, n.r.out[0].msg.channelId).Some?
    ensures Told(ReceiveStep(n).l, u, q + Stream(Emits(n, Receive), u), Later(p, n, Receive, u))
  {
    var m := n.r.out[0].msg;
    var w := Target(n.l.s, m);
    FoundIs(n, w, u, p);
    HandedTold(n.l, w, m, u, q, p);
    hide Network.Ok, Enabled;
    hide ReceiveStep, Emits, Later, Told, Handle, FailSide, HandledSide, SideOk, Table.Get, Target, Stream, Tag;
    hide Given, Ended;
    EndTold(HandledSide(n.l, w, m), u, q + Stream(Emits(n, Receive), u), Given(p, u, w, m),
            Handle(n.l.s.heap[w], m).err);
  }

  lemma HandTells(n: Net, u: nat, q: seq<Message>, p: Past)
    requires Network.Ok(n) && Enabled(n, Receive) && Network.Ok(ReceiveStep(n)) && Told(n.l, u, q, p)
    requires !n.r.out[0].msg.Open?
    ensures Told(ReceiveStep(n).l, u, q + Stream(Emits(n, Receive), u), Later(p, n, Receive, u))
  {
    hide Told, ReceiveStep, Emits, Later, Table.Get;
    if Table.Get(n.l.s.table, n.r.out[0].msg.channelId).None? {
      LostTells(n, u, q, p);
    } else {
      FoundTells(n, u, q, p);
    }
  }

  lemma HandAside(n: Net)
    requires Network.Ok(n) && Enabled(n, Receive) && !n.r.out[0].msg.Open?
    ensures ReceiveStep(n).l.out == n.l.out + Emits(n, Receive) && Aside(n, ReceiveStep(n))
  {
    ReceiveCases(n, n.r.out[0], Target(n.l.s, n.r.out[0].msg));
    HandFacts(n, n.r.out[0].msg, Target(n.l.s, n.r.out[0].msg), 0);
    assert n.l.out + [] == n.l.out;
    hide ReceiveStep, Emits;
  }

  lemma HandGoesOn(n: Net, u: nat, q: seq<Message>, p: Past)
    requires Network.Ok(n) && Enabled(n, Receive) && Network.Ok(Next(n, Receive)) && Told(n.l, u, q, p)
    requires !n.r.out[0].msg.Open?
    ensures GoesOn(n, Receive, u, q, p)
  {
    hide ReceiveStep, Told, Emits, Later, Aside;
    HandAside(n);
    HandTells(n, u, q, p);
  }

  lemma TurnGoesOn(n: Net, a: Action, u: nat, q: seq<Message>, p: Past)
    requires Network.Ok(n) && Enabled(n, a) && Network.Ok(Next(n, a)) && Told(n.l, u, q, p)
    ensures GoesOn(n, a, u, q, p)
  {
    match a
    case OpenCall => OpenGoesOn(n, u, q, p);
    case Request(w) => RequestGoesOn(n, w, u, q, p);
    case Call(w, op) => CallGoesOn(n, w, op, u, q, p);
    case Receive => if n.r.out[0].msg.Open? { AcceptGoesOn(n, u, q, p); } else { HandGoesOn(n, u, q, p); }
    case Proceed => ProceedGoesOn(n, u, q, p);
    case Fail => FailGoesOn(n, u, q, p);
  }

  // ---------------------------------------------------------------- whole runs are recorded

  /** The messages that channel u of a side has put on the wire. */
  function SentOn(ts: seq<Turn>, who: Who, u: nat): seq<Message>
    requires Legal(ts)
  {
    Stream(OnWire(ts, who), u)
  }

  lemma {:induction false} StreamJoin(a: seq<Packet>, b: seq<Packet>, u: nat)
    ensures Stream(a + b, u) == Stream(a, u) + Stream(b, u)
  {
    if a == [] {
      assert a + b == b;
    } else {
      var first := if a[0].src == u then [a[0].msg] else [];
      assert (a + b)[0] == a[0] && (a + b)[1..] == a[1..] + b;
      StreamJoin(a[1..], b, u);
      assert first + (Stream(a[1..], u) + Stream(b, u)) == (first + Stream(a[1..], u)) + Stream(b, u);
    }
  }

  /** What one more turn adds. */
  lemma Unroll(ts: seq<Turn>, who: Who, u: nat)
    requires Legal(ts) && ts != []
    ensures var before, t := ts[..|ts| - 1], ts[|ts| - 1];
            && MayFollow(before, t)
            && if t.who == who then
                 && OnWire(ts, who) == OnWire(before, who) + Emits(Seen(After(before), who), t.action)
                 && SentOn(ts, who, u) == SentOn(before, who, u) + Stream(Emits(Seen(After(before), who), t.action), u)
                 && PastOf(ts, who, u) == Later(PastOf(before, who, u), Seen(After(before), who), t.action, u)
               else
                 OnWire(ts, who) == OnWire(before, who) && PastOf(ts, who, u) == PastOf(before, who, u)
  {
    var before, t := ts[..|ts| - 1], ts[|ts| - 1];
    assert MayFollow(before, t);
    if t.who == who {
      StreamJoin(OnWire(before, who), Emits(Seen(After(before), who), t.action), u);
    } else {
      assert OnWire(before, who) + [] == OnWire(before, who);
    }
  }

  /**
   The history is faithful. After any run, clean or not, the history of a channel and its flags say what the
   channel has put on the wire, what was handed to it, what its calls have emitted, returned and reserved, and
   how often `close` ran on it.
   */
  lemma {:induction false} HistoryIsFaithful(ts: seq<Turn>, who: Who, u: nat)
    requires Legal(ts)
    ensures var e := Mine(After(ts), who);
            |e.hist| == |e.s.heap| && Told(e, u, SentOn(ts, who, u), PastOf(ts, who, u))
    decreases |ts|
  {
    RunOk(ts);
    if ts == [] {
      assert Stream([], u) == [];
    } else {
      var before, t := ts[..|ts| - 1], ts[|ts| - 1];
      var q, p := SentOn(before, who, u), PastOf(before, who, u);
      HistoryIsFaithful(before, who, u);
      Unroll(ts, who, u);
      Unfold(ts);
      RunOk(before);
      TurnOk(After(before), t);
      if t.who == who {
        TurnGoesOn(Seen(After(before), who), t.action, u, q, p);
      } else {
        OtherSideTold(Seen(After(before), t.who), t.action, u, q, p);
      }
    }
  }

  /** A turn of the left side does not change the story of the right. */
  lemma OtherSideTold(n: Net, a: Action, u: nat, q: seq<Message>, p: Past)
    requires Network.Ok(n) && Enabled(n, a) && Network.Ok(Next(n, a)) && Told(n.r, u, q, p)
    ensures Told(Next(n, a).r, u, q, p)
  {
    hide Next, Emits;
    NothingMore(q);
    TurnWires(n, a);
  }

  /** A turn adds to one wire, and leaves the other side aside. */
  lemma TurnWires(n: Net, a: Action)
    requires Network.Ok(n) && Enabled(n, a) && Network.Ok(Next(n, a))
    ensures Next(n, a).l.out == n.l.out + Emits(n, a) && Aside(n, Next(n, a))
  {
    var u := |n.l.s.heap|;
    assert Told(n.l, u, [], NO_PAST);
    hide Told, Next, Emits, Later;
    TurnGoesOn(n, a, u, [], NO_PAST);
    assert GoesOn(n, a, u, [], NO_PAST);
  }
}
