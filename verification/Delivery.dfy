/**
 Exactly which runs are safe. `Write` does not look at `sentClose`, so a chunk can go on the wire behind
 the channel's Close; and `handleOpen` queues a channel before it encodes the confirmation, so a user's Close
 can go out before that. In a run without either every message reaches the peer of the channel that sent
 it, and no message fails a session; after one of them, processing what is in flight brings a message that
 does not.
 */
module Delivery {
  import opened Wrappers
  import opened Wire
  import opened Endpoint
  import opened Network
  import opened Runs
  import Link
  import Table

  // ---------------------------------------------------------------- what it is to be safe

  /** The left side processes the next message without an error, and on the peer of its sender. */
  predicate Delivered(n: Net)
    requires Network.Ok(n) && n.r.out != []
  {
    var p := n.r.out[0];
    && OnePacket(n.l.s, p.msg).err.None?
    && (!p.msg.Open? ==>
          var found := Table.Get(n.l.s.table, p.msg.channelId);
          found.Some? && p.src < |n.r.hist| && n.r.hist[p.src].peer == found)
  }

  predicate DeliveredBy(n: Net, t: Turn)
    requires Network.Ok(n) && MayTurn(n, t)
  {
    t.action.Receive? ==> Delivered(Seen(n, t.who))
  }

  /** Every message that a run processes is delivered. */
  predicate AllDelivered(ts: seq<Turn>)
    requires Legal(ts)
    decreases |ts|, 0
  {
    ts == [] || DeliveredExtended(ts[..|ts| - 1], ts[|ts| - 1])
  }

  predicate DeliveredExtended(ts: seq<Turn>, t: Turn)
    requires MayFollow(ts, t)
    decreases |ts|, 1
  {
    AllDelivered(ts) && DeliveredBy(After(ts), t)
  }

  /** The sessions' loops go on; no user does anything. */
  predicate LoopsOnly(es: seq<Turn>) {
    forall t | t in es :: t.action.Receive? || t.action.Proceed?
  }

  /** From whatever moment of the run the loops go on alone, all they process is delivered. */
  ghost predicate Safe(ts: seq<Turn>)
    requires Legal(ts)
  {
    forall k: nat, es | k <= |ts| && LoopsOnly(es) && Legal(ts[..k] + es) :: AllDelivered(ts[..k] + es)
  }

  /** Both sides can number a channel for every request in flight. */
  predicate Roomy(n: Net) {
    |n.l.s.table| + |n.r.out| < TWO32 - 1 && |n.r.s.table| + |n.l.out| < TWO32 - 1
  }

  ghost predicate AlwaysRoomy(ts: seq<Turn>)
    requires Legal(ts)
  {
    forall k: nat | k <= |ts| && Legal(ts[..k]) :: Roomy(After(ts[..k]))
  }

  // ---------------------------------------------------------------- clean runs are safe

  lemma DeliveredNext(n: Net)
    requires Inv(n) && Enabled(n, Receive)
    ensures Delivered(n)
  {
    if n.r.out[0].msg.Open? { AcceptKeeps(n); } else { HandleKeeps(n); Routed(n); }
  }

  lemma {:induction false} CleanDelivers(ts: seq<Turn>)
    requires Legal(ts) && Clean(ts)
    ensures AllDelivered(ts)
    decreases |ts|
  {
    if ts != [] {
      var before, t := ts[..|ts| - 1], ts[|ts| - 1];
      Unfold(ts);
      CleanDelivers(before);
      RunKeeps(before);
      if t.action.Receive? { DeliveredNext(Seen(After(before), t.who)); }
      assert DeliveredExtended(before, t);
    }
  }

  /** The first turns of a run are a run, and clean if it is. */
  lemma {:induction false} Prefix(ts: seq<Turn>, k: nat)
    requires Legal(ts) && k <= |ts|
    ensures Legal(ts[..k]) && (Clean(ts) ==> Clean(ts[..k]))
    decreases |ts|
  {
    if k == |ts| {
      assert ts[..k] == ts;
    } else {
      Unfold(ts);
      Prefix(ts[..|ts| - 1], k);
      assert ts[..|ts| - 1][..k] == ts[..k];
    }
  }

  /** The loops alone do nothing stale. */
  lemma {:induction false} LoopsAreClean(ts: seq<Turn>, es: seq<Turn>)
    requires Legal(ts) && Clean(ts) && LoopsOnly(es) && Legal(ts + es)
    ensures Clean(ts + es)
    decreases |es|
  {
    if es == [] {
      assert ts + es == ts;
    } else {
      var first, t := es[..|es| - 1], es[|es| - 1];
      assert (ts + es)[..|ts + es| - 1] == ts + first;
      Unfold(ts + es);
      assert t in es;
      LoopsAreClean(ts, first);
    }
  }

  // ---------------------------------------------------------------- a stale turn is not safe

  predicate Gone(s: Sess, v: nat) {
    v < |s.heap| && Some(v) !in s.table
  }

  /** A Close from u is in front of the j-th message in flight, or channel v, which it was for, leaves the
      table, or has left it. */
  predicate Closing(m: Net, u: nat, v: nat, j: nat) {
    || (exists i :: 0 <= i < j && i < |m.r.out| && m.r.out[i].src == u && m.r.out[i].msg.Close?)
    || m.l.s.loop == Freeing(v)
    || Gone(m.l.s, v)
  }

  /** The j-th message in flight to the left side is from channel u and behind its Close; v is the peer. */
  ghost predicate Doomed(m: Net, u: nat, v: nat, j: nat) {
    && Network.Ok(m) && m.l.s.err.None?
    && u < |m.r.hist| && m.r.hist[u].peer == Some(v)
    && j < |m.r.out| && m.r.out[j].src == u
    && (forall i | 0 <= i <= j && m.r.out[i].src == u :: !m.r.out[i].msg.Open?)
    && |m.l.s.table| + j < TWO32 - 1
    && Closing(m, u, v, j)
  }

  function Rank(l: Loop): nat {
    match l
    case Idle => 0
    case Freeing(_) => 2
    case _ => 1
  }

  lemma RemovedIsGone(n: Side, v: nat)
    requires SideOk(n) && v < |n.s.heap|
    ensures Some(v) !in Table.Remove(n.s.table, n.s.heap[v].localId)
  {
    assert |n.s.table| % TWO32 == |n.s.table|;
    LiveIffListed(n, v);
  }

  lemma DoomedProceeds(m: Net, u: nat, v: nat, j: nat)
    requires Doomed(m, u, v, j) && !m.l.s.loop.Idle?
    ensures Enabled(m, Proceed) && Doomed(Next(m, Proceed), u, v, j)
    ensures Rank(Next(m, Proceed).l.s.loop) < Rank(m.l.s.loop)
  {
    NextOk(m, Proceed);
    var m' := Next(m, Proceed);
    if m.l.s.loop == Freeing(v) {
      RemovedIsGone(m.l, v);
      assert Gone(m'.l.s, v);
    } else if Gone(m.l.s, v) {
      assert Gone(m'.l.s, v);
    }
  }

  /** What has left the table is not found again, so the message behind the Close is not delivered; every
      message in front of it brings it nearer. */
  lemma DoomedReceives(m: Net, u: nat, v: nat, j: nat)
    requires Doomed(m, u, v, j) && m.l.s.loop.Idle?
    ensures Enabled(m, Receive)
    ensures Delivered(m) ==> j > 0 && Doomed(Next(m, Receive), u, v, j - 1)
  {
    var p := m.r.out[0];
    assert p in m.r.out;
    if Delivered(m) {
      NextOk(m, Receive);
      DeliveredLeft(m, u, v);
      var m' := Next(m, Receive);
      assert m'.r.out == m.r.out[1..];
      if Gone(m.l.s, v) {
        assert p.src == u ==> p.msg.Open?;
      } else {
        var i :| 0 <= i < j && m.r.out[i].src == u && m.r.out[i].msg.Close?;
        if i > 0 { assert m'.r.out[i - 1] == m.r.out[i]; }
      }
    }
  }

  /** What a delivered message does to the table: a Close from u starts the freeing of its peer, and no
      channel comes back. */
  lemma DeliveredLeft(m: Net, u: nat, v: nat)
    requires Network.Ok(m) && Enabled(m, Receive) && Delivered(m)
    requires u < |m.r.hist| && m.r.hist[u].peer == Some(v) && (m.r.out[0].src == u ==> !m.r.out[0].msg.Open?)
    ensures var m', p := ReceiveStep(m), m.r.out[0];
            && m'.l.s.err == m.l.s.err && |m'.l.s.table| <= |m.l.s.table| + 1
            && m'.r.out == m.r.out[1..] && u < |m'.r.hist| && m'.r.hist[u].peer == Some(v)
            && (p.src == u && p.msg.Close? ==> m'.l.s.loop == Freeing(v))
            && (p.src == u && !p.msg.Open? ==> !Gone(m.l.s, v))
            && (Gone(m.l.s, v) ==> Gone(m'.l.s, v))
  {
    assert m.r.out[0] in m.r.out;
  }

  lemma SeenTake(n: Net, who: Who, a: Action)
    requires Network.Ok(n) && Enabled(Seen(n, who), a)
    ensures MayTurn(n, Turn(who, a)) && Seen(Take(n, Turn(who, a)), who) == Next(Seen(n, who), a)
  {
  }

  /** A turn whose message is not delivered. */
  lemma Undelivered(ts: seq<Turn>, who: Who)
    requires Legal(ts) && Network.Ok(After(ts)) && Enabled(Seen(After(ts), who), Receive)
    requires !Delivered(Seen(After(ts), who))
    ensures Legal(ts + [Turn(who, Receive)]) && !AllDelivered(ts + [Turn(who, Receive)])
  {
    var t := Turn(who, Receive);
    assert MayFollow(ts, t) && !DeliveredExtended(ts, t);
    Extend(ts, t);
    assert (ts + [t])[..|ts|] == ts;
  }

  /** The next turn of the loop that is sent to: a message is not delivered, or the one behind the Close is
      nearer. */
  lemma DrainTurn(ts: seq<Turn>, who: Who, u: nat, v: nat, j: nat) returns (t: Turn, j': nat)
    requires Legal(ts) && Doomed(Seen(After(ts), who), u, v, j)
    ensures (t.action.Receive? || t.action.Proceed?) && Legal(ts + [t])
    ensures !AllDelivered(ts + [t]) || Nearer(ts, ts + [t], who, u, v, j, j')
  {
    hide Doomed, Delivered, Rank, Next, Enabled;
    RunOk(ts);
    var m := Seen(After(ts), who);
    var idle := m.l.s.loop.Idle?;
    t, j' := Turn(who, if idle then Receive else Action.Proceed), if idle && j > 0 then j - 1 else j;
    if t.action.Receive? { DoomedReceives(m, u, v, j); } else { DoomedProceeds(m, u, v, j); }
    if t.action.Receive? && !Delivered(m) {
      Undelivered(ts, who);
    } else {
      SeenTake(After(ts), who, t.action);
      Extend(ts, t);
    }
  }

  ghost predicate Nearer(ts: seq<Turn>, ts': seq<Turn>, who: Who, u: nat, v: nat, j: nat, j': nat)
    requires Legal(ts) && Legal(ts')
  {
    var m, m' := Seen(After(ts), who), Seen(After(ts'), who);
    && Doomed(m', u, v, j')
    && (j' < j || (j' == j && Rank(m'.l.s.loop) < Rank(m.l.s.loop)))
  }

  /** The loop of the side that is sent to works its way to the message behind the Close, and does not deliver
      it, or one before it. */
  lemma {:induction false} Drain(ts: seq<Turn>, who: Who, u: nat, v: nat, j: nat) returns (es: seq<Turn>)
    requires Legal(ts) && Doomed(Seen(After(ts), who), u, v, j)
    ensures LoopsOnly(es) && Legal(ts + es) && !AllDelivered(ts + es)
    decreases j, Rank(Seen(After(ts), who).l.s.loop)
  {
    var t, j' := DrainTurn(ts, who, u, v, j);
    hide Doomed, Rank, Seen;
    if AllDelivered(ts + [t]) {
      var rest := Drain(ts + [t], who, u, v, j');
      es := [t] + rest;
      Regroup(ts, [t], rest);
    } else {
      es := [t];
    }
  }

  /** A channel that has a Close on the wire, and a peer whose session runs. */
  lemma {:induction false} PacketOf(out: seq<Packet>, u: nat) returns (i: nat)
    requires Link.Total(Stream(out, u)).closes > 0
    ensures i < |out| && out[i].src == u && out[i].msg.Close?
  {
    var q, tail := Stream(out, u), Stream(out[1..], u);
    assert if out[0].src == u then q[0] == out[0].msg && q[1..] == tail else q == tail;
    if out[0].src == u && out[0].msg.Close? {
      i := 0;
    } else {
      i := PacketOf(out[1..], u);
      i := i + 1;
    }
  }

  /** No message of a channel with a peer opens another. */
  lemma NoOpens(n: Net, u: nat)
    requires Inv(n) && u < |n.l.s.heap| && n.l.hist[u].peer.Some?
    ensures forall p | p in n.l.out && p.src == u :: !p.msg.Open?
  {
    assert ChannelOk(n.l, n.r, u);
    forall p | p in n.l.out && p.src == u ensures !p.msg.Open? {
      StreamHas(n.l.out, p);
    }
  }

  /** Behind a Close that was sent, nothing more is delivered. */
  lemma SentIsClosing(n: Net, u: nat, v: nat)
    requires Inv(n) && u < |n.l.s.heap| && n.l.hist[u].peer == Some(v) && n.l.hist[u].closes > 0 && n.r.s.err.None?
    ensures Closing(Swap(n), u, v, |n.l.out|)
  {
    assert ChannelOk(n.l, n.r, u);
    if n.r.hist[v].gotClose {
      assert AtStage(n.r.s.loop, v, View(n.r, v));
      LiveIffListed(n.r, v);
    } else {
      var i := PacketOf(n.l.out, u);
    }
  }

  /** A user's turn after which a message is behind its channel's Close, or is as soon as the loop goes on. */
  lemma StaleSends(n: Net, u: nat, op: UserOp) returns (m: Message)
    requires Inv(n) && Enabled(n, Call(u, op)) && Stale(n, Call(u, op))
    ensures var n' := Next(n, Call(u, op));
            && n'.r == n.r && n'.l.out == n.l.out + [Packet(m, u)] && !m.Open? && (op.Close? ==> m.Close?)
            && n'.l.s.loop == n.l.s.loop && n.l.hist[u].peer.Some?
            && u < |n'.l.hist| && n'.l.hist[u].peer == n.l.hist[u].peer
  {
    var ms := Apply(n.l.s.heap[u], op).out;
    assert ChannelOk(n.l, n.r, u);
    m := ms[0];
    assert Tag(ms, u) == [Packet(m, u)];
    CallView(n.l, u, op);
  }

  /** A chunk encoded behind the Close. */
  lemma EncodeDooms(n: Net, u: nat, op: UserOp) returns (v: nat)
    requires Inv(n) && Enabled(n, Call(u, op)) && Stale(n, Call(u, op)) && op.Encode?
    requires Roomy(Next(n, Call(u, op)))
    ensures Doomed(Swap(Next(n, Call(u, op))), u, v, |n.l.out|)
  {
    var n' := Next(n, Call(u, op));
    NextOk(n, Call(u, op));
    var m := StaleSends(n, u, op);
    v := n.l.hist[u].peer.value;
    SentIsClosing(n, u, v);
    NoOpens(n, u);
    Extends(Swap(n), Swap(n'), u, v);
    assert forall i | 0 <= i < |n.l.out| :: n'.l.out[i] == n.l.out[i] && n.l.out[i] in n.l.out;
  }

  /** More behind it changes nothing. */
  lemma Extends(m: Net, m': Net, u: nat, v: nat)
    requires Closing(m, u, v, |m.r.out|) && m'.l == m.l && m.r.out <= m'.r.out
    ensures Closing(m', u, v, |m.r.out|)
  {
  }

  /** A confirmation encoded behind the Close, once the loop goes on. */
  lemma CloseDooms(n: Net, u: nat, op: UserOp) returns (v: nat)
    requires Inv(n) && Enabled(n, Call(u, op)) && Stale(n, Call(u, op)) && op.Close?
    requires Roomy(Next(n, Call(u, op)))
    ensures var n' := Next(n, Call(u, op));
            && Network.Ok(n') && Enabled(n', Proceed)
            && Doomed(Swap(Next(n', Proceed)), u, v, |n.l.out| + 1)
  {
    var n' := Next(n, Call(u, op));
    NextOk(n, Call(u, op));
    var m := StaleSends(n, u, op);
    v := n.l.hist[u].peer.value;
    NoOpens(n, u);
    NextOk(n', Proceed);
    var n'' := Next(n', Proceed);
    var confirm := Confirm(n'.l.s.heap[u]);
    assert Tag([confirm], u) == [Packet(confirm, u)];
    assert n''.l.out == n'.l.out + [Packet(confirm, u)];
    assert n''.l.out[|n.l.out|] == Packet(m, u);
    assert forall i | 0 <= i < |n.l.out| :: n''.l.out[i] == n.l.out[i] && n.l.out[i] in n.l.out;
  }

  /** One stale turn, and the loops alone bring a message that is not delivered. */
  lemma {:induction false} StaleBreaks(ts: seq<Turn>, t: Turn) returns (es: seq<Turn>)
    requires MayFollow(ts, t) && Clean(ts) && StaleTurn(After(ts), t) && Roomy(Extended(ts, t))
    ensures LoopsOnly(es) && Legal(ts + [t] + es) && !AllDelivered(ts + [t] + es)
  {
    RunKeeps(ts);
    Extend(ts, t);
    var n, u, op := Seen(After(ts), t.who), t.action.u, t.action.op;
    if op.Encode? {
      var v := EncodeDooms(n, u, op);
      hide Doomed, Next, Stale, Enabled, Inv;
      es := Drain(ts + [t], Other(t.who), u, v, |n.l.out|);
    } else {
      es := CloseBreaks(ts, t);
    }
  }

  /** The loop of the side that has closed goes on to the confirmation. */
  lemma CloseGoes(ts: seq<Turn>, t: Turn, go: Turn) returns (v: nat, j: nat)
    requires MayFollow(ts, t) && Inv(After(ts)) && StaleTurn(After(ts), t)
    requires t.action.op.Close? && Roomy(Extended(ts, t))
    requires go == Turn(t.who, Action.Proceed)
    ensures Legal(ts + [t]) && Legal(ts + [t] + [go])
    ensures Doomed(Seen(After(ts + [t] + [go]), Other(t.who)), t.action.u, v, j)
  {
    Extend(ts, t);
    var n := Seen(After(ts), t.who);
    v := CloseDooms(n, t.action.u, t.action.op);
    j := |n.l.out| + 1;
    SeenTake(After(ts), t.who, t.action);
    hide Doomed, Next, Enabled, Inv, Stale, Roomy, StaleTurn;
    SeenTake(After(ts + [t]), t.who, Proceed);
    Extend(ts + [t], go);
  }

  lemma {:induction false} CloseBreaks(ts: seq<Turn>, t: Turn) returns (es: seq<Turn>)
    requires MayFollow(ts, t) && Inv(After(ts)) && StaleTurn(After(ts), t)
    requires t.action.op.Close? && Roomy(Extended(ts, t))
    ensures LoopsOnly(es) && Legal(ts + [t] + es) && !AllDelivered(ts + [t] + es)
  {
    var go := Turn(t.who, Action.Proceed);
    var v, j := CloseGoes(ts, t, go);
    hide Doomed, StaleTurn, Seen, Inv;
    var rest := Drain(ts + [t] + [go], Other(t.who), t.action.u, v, j);
    es := [go] + rest;
    Regroup(ts + [t], [go], rest);
  }

  lemma CleanStart()
    ensures Legal([]) && Clean([])
  {
  }

  /** A run that is not clean has a first stale turn. */
  lemma {:induction false} FirstStale(ts: seq<Turn>) returns (k: nat)
    requires Legal(ts) && !Clean(ts)
    ensures k < |ts| && MayFollow(ts[..k], ts[k]) && Clean(ts[..k]) && StaleTurn(After(ts[..k]), ts[k])
    decreases |ts|
  {
    hide StaleTurn, Clean, After, Network.Ok, MayTurn;
    CleanStart();
    var before := ts[..|ts| - 1];
    Unfold(ts);
    if Clean(before) {
      k := |ts| - 1;
    } else {
      k := FirstStale(before);
      assert before[..k] == ts[..k];
    }
  }

  lemma CleanIsSafe(ts: seq<Turn>)
    requires Legal(ts) && Clean(ts)
    ensures Safe(ts)
  {
    forall k: nat, es | k <= |ts| && LoopsOnly(es) && Legal(ts[..k] + es) ensures AllDelivered(ts[..k] + es) {
      Prefix(ts, k);
      LoopsAreClean(ts[..k], es);
      CleanDelivers(ts[..k] + es);
    }
  }

  lemma UncleanIsUnsafe(ts: seq<Turn>)
    requires Legal(ts) && AlwaysRoomy(ts) && !Clean(ts)
    ensures !Safe(ts)
  {
    hide AlwaysRoomy, Roomy, StaleTurn, LoopsOnly, Network.Ok, MayTurn;
    var k := FirstStale(ts);
    RoomyThere(ts, k);
    OneMore(ts, k);
    var es := StaleBreaks(ts[..k], ts[k]);
    assert Legal(ts[..k + 1] + es) && !AllDelivered(ts[..k + 1] + es);
  }

  lemma OneMore(ts: seq<Turn>, k: nat)
    requires k < |ts|
    ensures ts[..k + 1] == ts[..k] + [ts[k]]
  {
  }

  lemma RoomyThere(ts: seq<Turn>, k: nat)
    requires Legal(ts) && AlwaysRoomy(ts) && k < |ts| && MayFollow(ts[..k], ts[k])
    ensures Roomy(Extended(ts[..k], ts[k]))
  {
    Prefix(ts, k + 1);
    assert Roomy(After(ts[..k + 1]));
    hide Roomy, AlwaysRoomy, Network.Ok, MayTurn;
    OneMore(ts, k);
    Extend(ts[..k], ts[k]);
  }

  /**
   A run is safe if and only if it is clean: from every moment of it the loops deliver all they process,
   without an error, exactly when, while the peer's session runs, no chunk is encoded behind its channel's
   Close, and no Close goes out before its channel's confirmation.
   */
  lemma SafeIff(ts: seq<Turn>)
    requires Legal(ts) && AlwaysRoomy(ts)
    ensures Safe(ts) <==> Clean(ts)
  {
    hide Safe, Clean, AlwaysRoomy;
    if Clean(ts) { CleanIsSafe(ts); } else { UncleanIsUnsafe(ts); }
  }
}
