/**
 What holds in every run of two sessions: any number of channels, any interleaving of turns, any
 point at which a transport fails.
 */
module Runs {
  import opened Wrappers
  import opened Endpoint
  import opened Network
  import Link
  import Table

  // ---------------------------------------------------------------- runs

  /** Turns that can be taken one after the other. */
  predicate Legal(ts: seq<Turn>)
    decreases |ts|, 0
  {
    ts == [] || MayFollow(ts[..|ts| - 1], ts[|ts| - 1])
  }

  /** A turn that can be taken after a run. `Ok` makes it defined; RunOk shows that it forbids none. */
  predicate MayFollow(ts: seq<Turn>, t: Turn)
    decreases |ts|, 2
  {
    Legal(ts) && Network.Ok(After(ts)) && MayTurn(After(ts), t)
  }

  /** The state a run ends in. */
  function After(ts: seq<Turn>): (n: Net)
    requires Legal(ts)
    decreases |ts|, 1
  {
    if ts == [] then START else Extended(ts[..|ts| - 1], ts[|ts| - 1])
  }

  /** The state one turn after a run. */
  function Extended(ts: seq<Turn>, t: Turn): Net
    requires MayFollow(ts, t)
    decreases |ts|, 3
  {
    Take(After(ts), t)
  }

  /** While the peer's session runs, no chunk is encoded behind its channel's Close, be it sent by a user or
      by the loop in reply to the peer's, and no Close goes out before its channel's confirmation. */
  predicate Clean(ts: seq<Turn>)
    requires Legal(ts)
    decreases |ts|, 0
  {
    ts == [] || CleanExtended(ts[..|ts| - 1], ts[|ts| - 1])
  }

  predicate CleanExtended(ts: seq<Turn>, t: Turn)
    requires MayFollow(ts, t)
    decreases |ts|, 1
  {
    Clean(ts) && !StaleTurn(After(ts), t)
  }

  /** The last turn of a run. */
  lemma Unfold(ts: seq<Turn>)
    requires Legal(ts) && ts != []
    ensures var before, t := ts[..|ts| - 1], ts[|ts| - 1];
            && MayFollow(before, t) && After(ts) == Extended(before, t)
            && (Clean(ts) <==> Clean(before) && !StaleTurn(After(before), t))
  {
    assert Clean(ts) <==> CleanExtended(ts[..|ts| - 1], ts[|ts| - 1]);
  }

  /** A run and one more turn. */
  lemma Extend(ts: seq<Turn>, t: Turn)
    requires MayFollow(ts, t)
    ensures Legal(ts + [t]) && After(ts + [t]) == Extended(ts, t)
    ensures Clean(ts + [t]) <==> Clean(ts) && !StaleTurn(After(ts), t)
  {
    assert (ts + [t])[..|ts|] == ts;
    Unfold(ts + [t]);
  }

  /** Any turn that is enabled can follow any run. */
  lemma {:induction false} RunOk(ts: seq<Turn>)
    requires Legal(ts)
    ensures Network.Ok(After(ts))
    ensures forall t | MayTurn(After(ts), t) :: MayFollow(ts, t)
    decreases |ts|
  {
    if ts != [] {
      Unfold(ts);
      TurnOk(After(ts[..|ts| - 1]), ts[|ts| - 1]);
    }
  }

  /**
   Who may take a turn after a run, clean or not. A session that runs may open a channel if it can number it,
   and between two packets it may process the next one or fail. What a session or an allocated channel has
   begun it may go on with. A user who holds a channel may close it, end its writing and read at any time, and
   write when there is credit or the window is closed; second steps are for what first ones have left.
   */
  lemma MayFollowIff(ts: seq<Turn>, who: Who, a: Action)
    requires Legal(ts)
    ensures |Mine(After(ts), who).hist| == |Mine(After(ts), who).s.heap|
    ensures var e, f := Mine(After(ts), who), Theirs(After(ts), who);
            var room := Table.FirstFree(e.s.table) < 0xFFFF_FFFF;
            MayFollow(ts, Turn(who, a)) <==>
            match a
            case OpenCall => e.s.err == None && room
            case Request(u) => u < |e.s.heap| && e.hist[u].requesting
            case Call(u, op) =>
              && u < |e.s.heap|
              && (var c := e.s.heap[u]; c.direction == Inbound || (c.msg != [] && c.msg[0].OpenConfirm?))
              && (match op
                  case Write(data) => data != [] && (e.s.heap[u].winClosed || e.s.heap[u].remoteWin > 0)
                  case Encode(k, chunk) => k < |e.hist[u].reserved| && e.hist[u].reserved[k] == chunk
                  case Adjust(k, n) => k < |e.hist[u].owed| && |e.hist[u].owed[k]| == n
                  case _ => true)
            case Receive => e.s.err == None && e.s.loop == Idle && f.out != [] && (f.out[0].msg.Open? ==> room)
            case Proceed => e.s.loop != Idle
            case Fail => e.s.err == None && e.s.loop == Idle
  {
    RunOk(ts);
  }

  /** Every clean run ends in a state that satisfies the invariant. */
  lemma {:induction false} RunKeeps(ts: seq<Turn>)
    requires Legal(ts) && Clean(ts)
    ensures Inv(After(ts))
    decreases |ts|
  {
    if ts != [] {
      Unfold(ts);
      RunKeeps(ts[..|ts| - 1]);
      TurnKeeps(After(ts[..|ts| - 1]), ts[|ts| - 1]);
    }
  }

  /** What clean runs reach. */
  ghost predicate Reachable(n: Net) {
    exists ts :: Legal(ts) && Clean(ts) && After(ts) == n
  }

  lemma ReachableInv(n: Net)
    requires Reachable(n)
    ensures Inv(n)
  {
    var ts :| Legal(ts) && Clean(ts) && After(ts) == n;
    RunKeeps(ts);
  }

  /** Any enabled turn that is not stale can follow any clean run: what can be reached is closed under
      turns. */
  lemma ReachableNext(n: Net, t: Turn)
    requires Reachable(n) && MayTurn(n, t) && !StaleTurn(n, t)
    ensures Network.Ok(n) && Reachable(Take(n, t))
  {
    var ts :| Legal(ts) && Clean(ts) && After(ts) == n;
    RunOk(ts);
    Extend(ts, t);
  }

  /** A state as one side sees it: its own side on the left. */
  function Seen(n: Net, who: Who): Net {
    if who.Left? then n else Swap(n)
  }

  function Mine(n: Net, who: Who): Side {
    if who.Left? then n.l else n.r
  }

  function Theirs(n: Net, who: Who): Side {
    if who.Left? then n.r else n.l
  }

  function Other(who: Who): Who {
    if who.Left? then Right else Left
  }

  /** The channel at the other side, once there is one. */
  function Peer(n: Net, who: Who, u: nat): Option<nat> {
    if u < |Mine(n, who).hist| then Mine(n, who).hist[u].peer else None
  }

  lemma AtChannel(n: Net, who: Who, u: nat)
    requires Inv(n) && u < |Mine(n, who).s.heap|
    ensures ChannelOk(Mine(n, who), Theirs(n, who), u)
    ensures AtStage(Mine(n, who).s.loop, u, View(Mine(n, who), u))
  {
    assert forall w | 0 <= w < |n.l.s.heap| :: AtStage(n.l.s.loop, w, View(n.l, w));
    assert forall w | 0 <= w < |n.r.s.heap| :: AtStage(n.r.s.loop, w, View(n.r, w));
  }

  // ---------------------------------------------------------------- the multiplexer refines pipes

  /**
   Multiplexing refines independent FIFO pipes. For each direction of each pair of channels, what
   `Read` has returned, what it can still return, and what is in flight on the shared wire make up,
   in order, exactly what `Write` has emitted on that channel.
   */
  lemma PipesAreFifo(n: Net, who: Who, u: nat)
    requires Reachable(n) && u < |Mine(n, who).s.heap|
    requires Peer(n, who, u).Some?
    ensures var e, f := Mine(n, who), Theirs(n, who);
            var v := Peer(n, who, u).value;
            && u < |e.hist| && v < |f.s.heap| == |f.hist|
            && f.hist[v].read + f.s.heap[v].pending + Link.Total(Stream(e.out, u)).data == e.hist[u].sent
            && f.hist[v].read <= e.hist[u].sent
  {
    ReachableInv(n);
    AtChannel(n, who, u);
  }

  /** A channel without a peer has sent and received nothing. */
  lemma PipesStartEmpty(n: Net, who: Who, u: nat)
    requires Reachable(n) && u < |Mine(n, who).s.heap|
    requires Peer(n, who, u).None?
    ensures u < |Mine(n, who).hist| && Mine(n, who).hist[u].sent == [] && Mine(n, who).hist[u].read == []
  {
    ReachableInv(n);
    AtChannel(n, who, u);
  }

  // ---------------------------------------------------------------- two peers never fail each other

  /**
   No turn after a clean run ends in an error of the protocol: a message never meets a free slot, a payload
   or window it exceeds, a length it contradicts, an overflowing window update, an inbound channel it
   answers, or an invalid packet size. Only the transport can end a session.
   */
  lemma NeverFail(n: Net, t: Turn)
    requires Reachable(n) && MayTurn(n, t)
    ensures Network.Ok(n)
    ensures t.action.Receive? ==> OnePacket(Mine(n, t.who).s, Theirs(n, t.who).out[0].msg).err.None?
    ensures Mine(Take(n, t), t.who).s.err in {None, Some(Transport)}
  {
    ReachableInv(n);
    var m := if t.who.Left? then n else Swap(n);
    if t.action.Receive? {
      if m.r.out[0].msg.Open? { AcceptKeeps(m); } else { HandleKeeps(m); }
    }
    if !StaleTurn(n, t) { TurnKeeps(n, t); }
  }

  lemma {:induction false} StreamHas(out: seq<Packet>, p: Packet)
    requires p in out
    ensures p.msg in Stream(out, p.src)
  {
    if out[0] != p {
      StreamHas(out[1..], p);
    }
  }

  /** What a message in flight can be: an open request of a channel without a peer, or a message
      addressed to the peer. */
  lemma InFlight(n: Net, who: Who, p: Packet)
    requires Inv(n) && p in Mine(n, who).out
    ensures var e, f := Mine(n, who), Theirs(n, who);
            && p.src < |e.s.heap|
            && match e.hist[p.src].peer
               case None => p.msg == OpenRequest(e.s.heap[p.src])
               case Some(v) =>
                 && Joined(e, f, p.src, v)
                 && Link.Addressed(p.msg, f.s.heap[v].localId)
                 && Stream(e.out, p.src) != []
  {
    AtChannel(n, who, p.src);
    StreamHas(Mine(n, who).out, p);
  }

  /**
   Channel-number reuse is safe. Every message in flight that is addressed to slot i was sent by the
   peer of the channel that is in slot i now, whatever the slot held before.
   */
  lemma ReuseIsSafe(n: Net, who: Who, p: Packet)
    requires Reachable(n) && p in Mine(n, who).out && !p.msg.Open?
    requires Theirs(n, who).s.err.None?
    ensures var f := Theirs(n, who).s;
            var i := p.msg.channelId;
            && i < |f.table| && f.table[i].Some?
            && Peer(n, who, p.src) == f.table[i]
            && f.table[i].value < |Theirs(n, who).hist|
            && Theirs(n, who).hist[f.table[i].value].peer == Some(p.src)
  {
    ReachableInv(n);
    InFlight(n, who, p);
  }

  // ---------------------------------------------------------------- flow control

  /**
   Credit is conserved: what a sender may still send, what its writers have reserved, the data and the window
   adjustments in flight, and the initial window, when its confirmation is in flight or about to be encoded,
   add up to the receiver's window. Once the receiver has sent Close it returns no more credit, and the sum
   can only be less.
   */
  lemma CreditIsConserved(n: Net, who: Who, u: nat)
    requires Reachable(n) && u < |Mine(n, who).s.heap|
    requires Peer(n, who, u).Some?
    ensures var e, f := Mine(n, who), Theirs(n, who);
            var v := Peer(n, who, u).value;
            && u < |e.hist| && v < |f.s.heap|
            && var there, back := Link.Total(Stream(e.out, u)), Link.Total(Stream(f.out, v));
               var unannounced := if f.s.loop == Confirming(v) then CHANNEL_WINDOW_SIZE else 0;
               var credit := e.s.heap[u].remoteWin + Link.Bytes(e.hist[u].reserved) + |there.data|
                             + back.adjust + back.initial + unannounced;
               && credit <= f.s.heap[v].myWindow
               && (!f.s.heap[v].sentClose && e.s.err.None? ==> credit == f.s.heap[v].myWindow)
  {
    ReachableInv(n);
    AtChannel(n, who, u);
  }

  /** The receive window, the unread bytes and those that readers have still to give back make up the initial
      window, so giving credit back never overflows. */
  lemma WindowBound(n: Net, who: Who, u: nat)
    requires Reachable(n) && u < |Mine(n, who).s.heap|
    ensures var e := Mine(n, who);
            && u < |e.hist|
            && e.s.heap[u].myWindow + |e.s.heap[u].pending| + Link.Bytes(e.hist[u].owed) == CHANNEL_WINDOW_SIZE
  {
    ReachableInv(n);
    AtChannel(n, who, u);
  }

  /**
   No credit deadlock: when a sender is out of credit and its receiver has not sent Close, a chunk is
   reserved, data or credit is in flight or about to be, or the receiver has bytes to read or to give back.
   */
  lemma NoCreditDeadlock(n: Net, who: Who, u: nat)
    requires Reachable(n) && u < |Mine(n, who).s.heap|
    requires Peer(n, who, u).Some?
    requires Mine(n, who).s.err.None? && Mine(n, who).s.heap[u].remoteWin == 0
    ensures var e, f := Mine(n, who), Theirs(n, who);
            var v := Peer(n, who, u).value;
            v < |f.s.heap| == |f.hist| && u < |e.hist| && (!f.s.heap[v].sentClose ==>
              || e.hist[u].reserved != []
              || f.s.loop == Confirming(v)
              || Link.Total(Stream(e.out, u)).data != []
              || Link.Total(Stream(f.out, v)).adjust > 0
              || Link.Total(Stream(f.out, v)).initial > 0
              || f.s.heap[v].pending != []
              || f.hist[v].owed != [])
  {
    CreditIsConserved(n, who, u);
    WindowBound(n, Other(who), Peer(n, who, u).value);
    ReachableInv(n);
    hide Inv;
  }

  // ---------------------------------------------------------------- end of file

  /**
   A graceful end of file is complete: when `Read` reports io.EOF and the session still runs, the
   peer has sent Eof or Close, and the bytes read include all that it had sent before. They are
   exactly those when it has sent none since.
   */
  lemma GracefulEof(n: Net, who: Who, u: nat, len: nat)
    requires Reachable(n) && u < |Mine(n, who).s.heap|
    requires Link.Usable(Mine(n, who).s.heap[u]) && Mine(n, who).s.err.None?
    requires ReadSome(Mine(n, who).s.heap[u], len).eof
    ensures Peer(n, who, u).Some?
    ensures var e, f := Mine(n, who), Theirs(n, who);
            var v := Peer(n, who, u).value;
            && u < |e.hist| && v < |f.hist| && f.hist[v].mark.Some?
            && f.hist[v].mark.value <= e.hist[u].read <= f.hist[v].sent
            && (f.hist[v].sent == f.hist[v].mark.value ==> e.hist[u].read == f.hist[v].sent)
  {
    ReachableInv(n);
    AtChannel(n, who, u);
    assert Mine(n, who).s.heap[u].pending == [];
    var v := Peer(n, who, u).value;
    Flip(Mine(n, who), Theirs(n, who), u, v);
  }

  // ---------------------------------------------------------------- closing

  /**
   The close handshake: at most one Close is sent; `close` runs at most once, by the handler or by
   the end of the loop, and not before the slot is given up; and while the session runs a slot is free,
   and a channel shut, only after Close was both sent and received. On the wire to a session that runs,
   nothing of the channel is behind its Close.
   */
  lemma CloseHandshake(n: Net, who: Who, u: nat)
    requires Reachable(n) && u < |Mine(n, who).s.heap|
    ensures var e := Mine(n, who);
            && u < |e.hist| && e.hist[u].closes <= 1
            && e.hist[u].closeRuns <= 1
            && (e.hist[u].closeRuns == 0 <==> Live(e.s, u) || e.s.loop == Shutting(u))
            && (e.s.heap[u].msgClosed <==> e.hist[u].closeRuns == 1)
            && (e.hist[u].closes == 1 ==> e.s.heap[u].sentClose)
            && (e.s.err.None? && (!Live(e.s, u) || e.hist[u].closeRuns == 1) ==>
                  e.hist[u].gotClose && e.hist[u].closes == 1)
            && (Theirs(n, who).s.err.None? ==>
                  forall k | 0 <= k < |Stream(e.out, u)| - 1 :: !Stream(e.out, u)[k].Close?)
  {
    ReachableInv(n);
    AtChannel(n, who, u);
  }

  // ---------------------------------------------------------------- opening

  /**
   The open handshake: a request that has not been answered has still to be sent, or is in flight, or the
   acceptor's loop is about to confirm it, or one confirmation is in flight; none of these holds once it is
   answered, and then the two ends know each other's number. Until then the opener sends nothing else, and no
   request is refused.
   */
  lemma OpenHandshake(n: Net, who: Who, u: nat)
    requires Reachable(n) && u < |Mine(n, who).s.heap|
    requires Mine(n, who).s.heap[u].direction.Outbound?
    ensures var e, f := Mine(n, who), Theirs(n, who);
            var c := e.s.heap[u];
            match Peer(n, who, u)
            case None =>
              && c.msg == [] && u < |e.hist|
              && Stream(e.out, u) == (if e.hist[u].requesting then [] else [OpenRequest(c)])
            case Some(v) =>
              && v < |f.s.heap|
              && f.s.heap[v].remoteId == c.localId
              && u < |e.hist| && !e.hist[u].requesting
              && (forall m | m in Stream(e.out, u) :: !m.Open?)
              && (forall m | m in Stream(f.out, v) :: !m.OpenFailure?)
              && var back := Stream(f.out, v);
              && Link.Confirms(back) + (if f.s.loop == Confirming(v) then 1 else 0) == (if c.msg == [] then 1 else 0)
              && (c.msg == [] ==> Stream(e.out, u) == [])
              && (c.msg != [] ==> |c.msg| == 1 && c.msg[0].OpenConfirm? && c.remoteId == f.s.heap[v].localId)
  {
    ReachableInv(n);
    AtChannel(n, who, u);
    var e, f := Mine(n, who), Theirs(n, who);
    if e.hist[u].peer.Some? {
      var v := e.hist[u].peer.value;
      hide Inv, Link.Inv;
      Link.Answers(View(e, u), View(f, v), Stream(e.out, u), Stream(f.out, v));
    }
  }

  /** Pairing is a partial one-to-one correspondence between the channels of the two sides. */
  lemma PairingIsInjective(n: Net, who: Who, u: nat, w: nat)
    requires Reachable(n) && u < |Mine(n, who).s.heap| && w < |Mine(n, who).s.heap|
    requires Peer(n, who, u).Some? && Peer(n, who, u) == Peer(n, who, w)
    ensures u == w
    ensures var v := Peer(n, who, u).value;
            v < |Theirs(n, who).hist| && Theirs(n, who).hist[v].peer == Some(u)
  {
    ReachableInv(n);
    AtChannel(n, who, u);
    AtChannel(n, who, w);
  }
}
