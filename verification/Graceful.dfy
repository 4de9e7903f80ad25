/**
 How users keep a run safe. A user who ends its writing with `CloseWrite`, and closes only when it has done so
 and the peer's end of file has come, never puts anything behind a Close, whatever the other goroutines do and
 however their steps interleave: the runs of such users are clean. Nor do they lose a byte.
 */
module Graceful {
  import opened Wrappers
  import opened Wire
  import opened Endpoint
  import opened Network
  import opened Runs
  import opened Trace
  import Delivery
  import Link

  // ---------------------------------------------------------------- what users have to do

  /** No step of `Write` follows the `CloseWrite` of the channel, and a Close follows it and the end of file, at
      which `Read` reports io.EOF. */
  predicate Courteous(c: Chan, op: UserOp) {
    && (op.Write? || op.Encode? ==> !c.sentEOF)
    && (op.Close? ==> c.sentEOF && c.pendingClosed)
  }

  predicate PoliteTurn(n: Net, a: Action) {
    a.Call? && a.u < |n.l.s.heap| ==> Courteous(n.l.s.heap[a.u], a.op)
  }

  /** The users of both sides do so throughout a run. */
  predicate Polite(ts: seq<Turn>)
    requires Legal(ts)
    decreases |ts|, 0
  {
    ts == [] || PoliteExtended(ts[..|ts| - 1], ts[|ts| - 1])
  }

  predicate PoliteExtended(ts: seq<Turn>, t: Turn)
    requires MayFollow(ts, t)
    decreases |ts|, 1
  {
    Polite(ts) && PoliteTurn(Seen(After(ts), t.who), t.action)
  }

  // ---------------------------------------------------------------- what it keeps

  /** An end that has sent an Eof or a Close has written nothing since, and writes no more; and it has sent a
      Close only after it has handled an Eof or a Close. */
  predicate Mannered(e: Link.End) {
    && (e.h.mark.Some? ==> e.c.sentEOF && e.h.mark.value == e.h.sent)
    && (e.h.closes > 0 ==> e.h.mark.Some? && e.h.gotMark)
  }

  /** An end of file that has come is one that was sent, while the session runs. */
  lemma EndHasCome(s: Link.End, r: Link.End, q: seq<Message>, b: seq<Message>, sOpened: bool)
    requires Link.Inv(s, r, q, b, sOpened) && s.c.pendingClosed && !s.c.sentClose
    ensures s.h.gotMark && r.h.mark.Some? && !s.confirming
  {
    hide Link.Total, Link.Fifo, Link.Conserved, Link.CloseOnce, Link.Addressed;
  }

  lemma UserManners(s: Link.End, s': Link.End, r: Link.End, q: seq<Message>, b: seq<Message>, sOpened: bool, op: UserOp)
    requires Link.Inv(s, r, q, b, sOpened) && Mannered(s) && Courteous(s.c, op) && s' == Link.UserStep(s, op)
    ensures Mannered(s') && !Link.Stale(s, op)
  {
    hide Link.Inv, Link.NoteAll;
    if op.Close? && !s.c.sentClose { EndHasCome(s, r, q, b, sOpened); }
    CallShape(s.c, op);
    Link.NoteOne(Link.Stepped(s.h, s.c, op), Apply(s.c, op).out);
    NothingMore(s.h.sent);
  }

  /** When a Close is answered, the own Eof has been sent: the peer has handled it, or it would not have
      closed. */
  lemma AnswersAfterEof(s: Link.End, r: Link.End, q: seq<Message>, b: seq<Message>, sOpened: bool)
    requires Link.Inv(s, r, q, b, sOpened) && b != [] && b[0].Close? && !s.dead && Mannered(s) && Mannered(r)
    ensures s.c.sentEOF && s.h.mark.Some?
  {
    hide Link.Total, Link.Fifo, Link.Conserved, Link.Addressed;
    Link.LastClose(s, r, b);
  }

  lemma HandleManners(s: Link.End, s': Link.End, r: Link.End, q: seq<Message>, b: seq<Message>, sOpened: bool)
    requires Link.Inv(s, r, q, b, sOpened) && b != [] && !s.dead && Mannered(s) && Mannered(r)
    requires s' == Link.HandleStep(s, b[0])
    ensures Mannered(s')
  {
    hide Link.Inv, Handle, Link.NoteAll;
    var m := b[0];
    if m.Close? { AnswersAfterEof(s, r, q, b, sOpened); }
    HandleShape(s.c, m);
    Link.NoteOne(Link.NoteHandled(s.h, m), Handle(s.c, m).out);
    HandleMarks(s.c, m);
    NothingMore(s.h.sent);
  }

  /** The only message a handler sends is the reply to a Close, and it leaves `sentEOF` as it is. */
  lemma HandleMarks(c: Chan, m: Message)
    ensures var r := Handle(c, m);
            && r.c.sentEOF == c.sentEOF
            && (r.out != [] ==> m.Close? && r.out == [Message.Close(c.remoteId)])
  {
    match m
    case OpenConfirm(_, _, _, _) =>
    case WindowAdjust(_, _) =>
    case Data(_, _, _) =>
    case _ =>
  }

  ghost predicate AllMannered(n: Side)
    requires |n.hist| == |n.s.heap|
  {
    forall u | 0 <= u < |n.s.heap| :: Mannered(View(n, u))
  }

  // ---------------------------------------------------------------- every turn keeps it

  /** A turn that touches one channel of a side. */
  lemma OneTouched(n: Side, n': Side, u: nat)
    requires SideOk(n) && SideOk(n') && AllMannered(n) && |n.s.heap| == |n'.s.heap| && u < |n.s.heap|
    requires OthersSame(n, n', u) && Mannered(View(n', u))
    ensures AllMannered(n')
  {
    forall w | 0 <= w < |n'.s.heap| ensures Mannered(View(n', w)) {
      if w != u { assert Same(n, n', w) && Mannered(View(n, w)); }
    }
  }

  /** A turn that adds a channel to a side. */
  lemma OneAdded(n: Side, n': Side)
    requires SideOk(n) && SideOk(n') && AllMannered(n) && |n'.s.heap| == |n.s.heap| + 1
    requires forall u | 0 <= u < |n.s.heap| :: Same(n, n', u)
    requires Mannered(View(n', |n.s.heap|))
    ensures AllMannered(n')
  {
    forall w | 0 <= w < |n'.s.heap| ensures Mannered(View(n', w)) {
      if w < |n.s.heap| { assert Same(n, n', w) && Mannered(View(n, w)); }
    }
  }

  /** What the left side's turn does to the right is not a matter of manners. */
  lemma OtherSide(n: Net, a: Action)
    requires Inv(n) && Enabled(n, a) && Network.Ok(Next(n, a)) && AllMannered(n.r)
    ensures AllMannered(Next(n, a).r)
  {
    var n' := Next(n, a);
    assert n'.r.s == n.r.s;
    forall v | 0 <= v < |n'.r.s.heap| ensures Mannered(View(n'.r, v)) {
      assert Mannered(View(n.r, v));
      assert n'.r.hist[v] == n.r.hist[v].(peer := n'.r.hist[v].peer);
    }
  }

  lemma CallPolitely(n: Net, u: nat, op: UserOp)
    requires Inv(n) && Enabled(n, Call(u, op)) && AllMannered(n.l) && Courteous(n.l.s.heap[u], op)
    ensures Network.Ok(Next(n, Call(u, op))) && AllMannered(Next(n, Call(u, op)).l) && !Stale(n, Call(u, op))
  {
    NextOk(n, Call(u, op));
    assert ChannelOk(n.l, n.r, u) && Mannered(View(n.l, u));
    CallView(n.l, u, op);
    var v := n.l.hist[u].peer.value;
    var n' := Next(n, Call(u, op));
    UserManners(View(n.l, u), View(n'.l, u), View(n.r, v), Stream(n.l.out, u), Stream(n.r.out, v),
                n.l.s.heap[u].direction.Outbound?, op);
    hide Mannered, Stream, View;
    OneTouched(n.l, n'.l, u);
  }

  lemma ReceivePolitely(n: Net)
    requires Inv(n) && Enabled(n, Receive) && AllMannered(n.l) && AllMannered(n.r)
    ensures Network.Ok(Next(n, Receive)) && AllMannered(Next(n, Receive).l)
  {
    NextOk(n, Receive);
    var n', p := Next(n, Receive), n.r.out[0];
    if p.msg.Open? {
      RoutedOpen(n);
      AcceptLeft(n, n');
      hide Stream, View;
      OneAdded(n.l, n'.l);
    } else {
      var u := Target(n.l.s, p.msg);
      HandleShapes(n, n', u);
      Routed(n);
      assert Mannered(View(n.l, u)) && Mannered(View(n.r, p.src));
      HandleManners(View(n.l, u), View(n'.l, u), View(n.r, p.src), Stream(n.l.out, u), Stream(n.r.out, p.src),
                    n.l.s.heap[u].direction.Outbound?);
      hide Mannered, Stream, View;
      OneTouched(n.l, n'.l, u);
    }
  }

  /** The turns of `Open`, and those of the loop that handle no message. */
  lemma OthersPolitely(n: Net, a: Action)
    requires Inv(n) && Enabled(n, a) && AllMannered(n.l) && !a.Call? && !a.Receive?
    ensures Network.Ok(Next(n, a)) && AllMannered(Next(n, a).l)
  {
    NextOk(n, a);
    var n' := Next(n, a);
    match a
    case OpenCall =>
      OpenLeft(n, n');
      OneAdded(n.l, n'.l);
    case Request(u) =>
      RequestView(n.l, u);
      assert Mannered(View(n.l, u));
      OneTouched(n.l, n'.l, u);
    case Proceed =>
      NothingMore(n.l.hist[n.l.s.loop.u].sent);
      ProceedView(n.l, n.l.s.loop.u);
      assert Mannered(View(n.l, n.l.s.loop.u));
      OneTouched(n.l, n'.l, n.l.s.loop.u);
    case Fail =>
      forall u | 0 <= u < |n'.l.s.heap| ensures Mannered(View(n'.l, u)) {
        assert Mannered(View(n.l, u));
        FailView(n.l, u);
      }
    case _ =>
  }

  lemma TurnPolitely(n: Net, a: Action)
    requires Inv(n) && Enabled(n, a) && AllMannered(n.l) && AllMannered(n.r) && PoliteTurn(n, a)
    ensures Network.Ok(Next(n, a)) && AllMannered(Next(n, a).l) && AllMannered(Next(n, a).r) && !Stale(n, a)
  {
    match a {
      case Call(u, op) => CallPolitely(n, u, op);
      case Receive => ReceivePolitely(n);
      case _ => OthersPolitely(n, a);
    }
    OtherSide(n, a);
  }

  // ---------------------------------------------------------------- whole runs

  /**
   Polite runs are clean: however the steps of users and loops interleave, no chunk goes out behind its channel's
   Close, and no Close before its channel's confirmation.
   */
  lemma {:induction false} PoliteIsClean(ts: seq<Turn>)
    requires Legal(ts) && Polite(ts)
    ensures Clean(ts)
    ensures Network.Ok(After(ts)) && AllMannered(After(ts).l) && AllMannered(After(ts).r)
    decreases |ts|
  {
    RunOk(ts);
    if ts != [] {
      var before, t := ts[..|ts| - 1], ts[|ts| - 1];
      Unfold(ts);
      assert PoliteExtended(before, t);
      PoliteIsClean(before);
      RunKeeps(before);
      TurnPolitely(Seen(After(before), t.who), t.action);
    }
  }

  /**
   A polite close loses nothing: once a channel has put its Close on the wire, every byte that the calls of `Write`
   on its peer have ever emitted has been returned by its calls of `Read`, or can still be read.
   */
  lemma NothingLost(ts: seq<Turn>, who: Who, u: nat)
    requires Legal(ts) && Polite(ts)
    requires u < |Mine(After(ts), who).s.heap| && Link.Total(SentOn(ts, who, u)).closes > 0
    ensures Peer(After(ts), who, u).Some?
    ensures PastOf(ts, Other(who), Peer(After(ts), who, u).value).written ==
            PastOf(ts, who, u).returned + Mine(After(ts), who).s.heap[u].pending
  {
    hide Inv, Stream, Link.Total, Mannered;
    PoliteIsClean(ts);
    RunKeeps(ts);
    var n := After(ts);
    HistoryIsFaithful(ts, who, u);
    AtChannel(n, who, u);
    assert Mannered(View(Mine(n, who), u));
    var v := Peer(n, who, u).value;
    HistoryIsFaithful(ts, Other(who), v);
    assert Mannered(View(Theirs(n, who), v));
    AllArrived(View(Mine(n, who), u), View(Theirs(n, who), v), Stream(Mine(n, who).out, u),
               Stream(Theirs(n, who).out, v), Mine(n, who).s.heap[u].direction.Outbound?);
  }

  lemma AllArrived(s: Link.End, r: Link.End, q: seq<Message>, b: seq<Message>, sOpened: bool)
    requires Link.Inv(s, r, q, b, sOpened) && s.h.closes > 0 && Mannered(s) && Mannered(r)
    ensures r.h.sent == Link.Arrived(s)
  {
    hide Link.Total, Link.Conserved, Link.CloseOnce, Link.Addressed, Link.Shaken, Link.Arrived;
  }

  /** So polite runs are safe: all that the loops process, from every moment on, is delivered. */
  lemma PoliteIsSafe(ts: seq<Turn>)
    requires Legal(ts) && Polite(ts)
    ensures Delivery.Safe(ts)
  {
    PoliteIsClean(ts);
    Delivery.CleanIsSafe(ts);
  }
}
