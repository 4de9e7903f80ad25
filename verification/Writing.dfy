/** A whole call of `Write`: how golang/mux/channel.go cuts a slice into data messages. */
module Writing {
  import opened Wire
  import opened Endpoint
  import Credit
  import Link

  /** How a call ends, if it does before what the others do is told. */
  datatype Outcome = Returned(status: Status) | Running

  /** What a call leaves behind: the channel, the messages sent and the count it returns. */
  datatype Written = Written(c: Chan, out: seq<Message>, n: nat, how: Outcome)

  const DONE := Returned(Fine)

  function WinOf(c: Chan): Credit.Win {
    Credit.Win(c.remoteWin, c.winClosed)
  }

  function SetWin(c: Chan, w: Credit.Win): Chan {
    c.(remoteWin := w.win, winClosed := w.closed)
  }

  /** Where an iteration finds the window: the first list of events passes before it, and one more each
      time it waits. */
  function Reach(c: Chan, env: seq<seq<Credit.Event>>): (w: Credit.Wait)
    requires env != []
    ensures w.waiting <==> w.w.win == 0 && !w.w.closed
    ensures |w.rest| < |env|
  {
    Credit.Await(Credit.After(WinOf(c), env[0]), env[1..])
  }

  /**
   The loop of `Write`. `env` is what other goroutines do to the window, before each iteration and each time
   this one waits; when the lists run out the call is still running. The transport takes `accepts` more
   messages before it fails; what an iteration reserved is gone when it does.
   */
  function WriteLoop(c: Chan, data: seq<byte>, env: seq<seq<Credit.Event>>, accepts: nat): Written
    decreases |env|
  {
    if data == [] then Written(c, [], 0, DONE)
    else if env == [] then Written(c, [], 0, Running)
    else
      var w := Reach(c, env);
      var c' := SetWin(c, w.w);
      if w.waiting then Written(c', [], 0, Running)
      else
        var f := WriteIteration(c', data);
        var k := Chunk(c', data);
        if f.eof then Written(f.c, [], 0, Returned(EndOfFile))
        else if accepts == 0 then Written(f.c, [], 0, Returned(Broken))
        else
          var r := WriteLoop(f.c, data[k..], w.rest, accepts - 1);
          r.(out := f.out + r.out, n := k + r.n)
  }

  function WriteCall(c: Chan, data: seq<byte>, env: seq<seq<Credit.Event>>, accepts: nat): Written {
    if c.sentEOF then Written(c, [], 0, Returned(EndOfFile)) else WriteLoop(c, data, env, accepts)
  }

  /** One turn of the loop: the channel and what it sent, how much it took, what of `env` is left, and how it
      ended or that it still waits. */
  datatype Turned = Turned(
    c: Chan,
    out: seq<Message>,
    k: u32,
    rest: seq<seq<Credit.Event>>,
    status: Status,
    waiting: bool)

  function TurnOf(c: Chan, data: seq<byte>, env: seq<seq<Credit.Event>>, accepts: nat): (t: Turned)
    requires data != [] && env != []
    ensures t.k <= |data| && |t.rest| < |env|
    ensures |t.out| == if !t.waiting && t.status.Fine? then 1 else 0
    ensures |t.out| <= accepts
  {
    var w := Reach(c, env);
    var c' := SetWin(c, w.w);
    if w.waiting then Turned(c', [], 0, w.rest, Fine, true)
    else
      var f := WriteIteration(c', data);
      Turned(f.c, Taken(f.out, accepts), Chunk(c', data), w.rest, StatusOf(f, accepts), false)
  }

  /** A turn by how it ends. */
  lemma TurnIs(c: Chan, data: seq<byte>, env: seq<seq<Credit.Event>>, accepts: nat)
    requires data != [] && env != []
    ensures var w := Reach(c, env);
            var c' := SetWin(c, w.w);
            var k := Chunk(c', data);
            var after := c'.(remoteWin := c'.remoteWin - k);
            TurnOf(c, data, env, accepts) ==
            if w.waiting then Turned(c', [], 0, w.rest, Fine, true)
            else if c'.winClosed then Turned(after, [], k, w.rest, EndOfFile, false)
            else if accepts == 0 then Turned(after, [], k, w.rest, Broken, false)
            else Turned(after, [Data(c.remoteId, k, data[..k])], k, w.rest, Fine, false)
  {
  }

  /** A turn by what it finds: w is the window, when the first list of events has passed and this goroutine
      has waited as long as it had to. */
  lemma TurnFinds(c: Chan, data: seq<byte>, env: seq<seq<Credit.Event>>, accepts: nat, w: Credit.Wait)
    requires data != [] && env != []
    requires w == Credit.Await(Credit.After(Credit.Win(c.remoteWin, c.winClosed), env[0]), env[1..])
    ensures var t := TurnOf(c, data, env, accepts);
            && t.waiting == w.waiting && t.rest == w.rest
            && t.c.winClosed == w.w.closed && t.c.remoteWin + t.k == w.w.win
            && (t.waiting ==> t.k == 0)
            && (!t.waiting ==>
                  && t.k <= c.maxRemotePayload && t.k <= |data| % 0x1_0000_0000
                  && (t.k == c.maxRemotePayload || t.k == |data| % 0x1_0000_0000 || t.c.remoteWin == 0))
            && t.status == (if w.waiting then Fine else if w.w.closed then EndOfFile
                            else if accepts == 0 then Broken else Fine)
            && t.out == (if !w.waiting && t.status == Fine then [Data(c.remoteId, t.k, data[..t.k])] else [])
  {
    TurnIs(c, data, env, accepts);
    hide TurnOf;
  }

  /** The loop, turn by turn. */
  lemma LoopTurns(c: Chan, data: seq<byte>, env: seq<seq<Credit.Event>>, accepts: nat)
    requires data != [] && env != []
    ensures var t := TurnOf(c, data, env, accepts);
            WriteLoop(c, data, env, accepts) ==
            if t.waiting then Written(t.c, [], 0, Running)
            else if !t.status.Fine? then Written(t.c, [], 0, Returned(t.status))
            else
              var r := WriteLoop(t.c, data[t.k..], t.rest, accepts - 1);
              r.(out := t.out + r.out, n := t.k + r.n)
  {
  }

  /** What remains to be done after some of a call has been. */
  ghost predicate Continues(w: Written, sent: seq<Message>, n: nat, c: Chan, left: seq<byte>,
                            rest: seq<seq<Credit.Event>>, accepts: nat) {
    var r := WriteLoop(c, left, rest, accepts);
    w == Written(r.c, sent + r.out, n + r.n, r.how)
  }

  lemma Proceed(w: Written, sent: seq<Message>, n: nat, c: Chan, left: seq<byte>, env: seq<seq<Credit.Event>>,
                accepts: nat)
    requires left != [] && env != [] && Continues(w, sent, n, c, left, env, accepts)
    ensures var t := TurnOf(c, left, env, accepts);
            if t.waiting then w == Written(t.c, sent, n, Running)
            else if !t.status.Fine? then w == Written(t.c, sent, n, Returned(t.status))
            else Continues(w, sent + t.out, n + t.k, t.c, left[t.k..], t.rest, accepts - 1)
  {
    hide WriteLoop, TurnOf;
    var t := TurnOf(c, left, env, accepts);
    LoopTurns(c, left, env, accepts);
    if t.waiting || !t.status.Fine? {
      assert sent + [] == sent;
    } else {
      var r := WriteLoop(t.c, left[t.k..], t.rest, accepts - 1);
      assert sent + (t.out + r.out) == (sent + t.out) + r.out;
    }
  }

  lemma Begin(c: Chan, data: seq<byte>, env: seq<seq<Credit.Event>>, accepts: nat)
    ensures Continues(WriteLoop(c, data, env, accepts), [], 0, c, data, env, accepts)
  {
    var r := WriteLoop(c, data, env, accepts);
    assert [] + r.out == r.out;
  }

  lemma End(w: Written, sent: seq<Message>, n: nat, c: Chan, left: seq<byte>, env: seq<seq<Credit.Event>>, accepts: nat)
    requires (left == [] || env == []) && Continues(w, sent, n, c, left, env, accepts)
    ensures w == Written(c, sent, n, if left == [] then DONE else Running)
  {
    assert sent + [] == sent;
  }

  /** A payload of `Write`: truthfully labelled, for the peer, within the packet size, and not empty if
      the slice is shorter than 2^32 bytes and the packet size is not 0. */
  predicate GoodChunk(m: Message, c: Chan, len: nat) {
    && m.Data? && m.channelId == c.remoteId && WellFormed(m)
    && m.length <= c.maxRemotePayload
    && (len < TWO32 && 0 < c.maxRemotePayload ==> m.length > 0)
  }

  lemma GoodIteration(c: Chan, data: seq<byte>)
    requires data != [] && c.remoteWin > 0 && !c.winClosed
    ensures var k, f := Chunk(c, data), WriteIteration(c, data);
            && f.out == [Data(c.remoteId, k, data[..k])] && !f.eof
            && GoodChunk(f.out[0], c, |data|)
            && f.c.remoteId == c.remoteId && f.c.maxRemotePayload == c.maxRemotePayload
  {
  }

  lemma TotalFirst(m: Message, rest: seq<Message>)
    ensures Link.Total([m] + rest).data == Payload(m) + Link.Total(rest).data
  {
    assert ([m] + rest)[1..] == rest;
  }

  /**
   `Write` is an exact chunking: the payloads it sends make up the first n bytes in order, each is
   correctly labelled and within the peer's packet size, and a call returns without an error exactly when it
   has sent everything. For a slice shorter than 2^32 bytes no payload is empty.
   */
  lemma {:induction false} WriteIsExact(c: Chan, data: seq<byte>, env: seq<seq<Credit.Event>>, accepts: nat)
    ensures Exact(WriteLoop(c, data, env, accepts), c, data)
    decreases |env|
  {
    hide WriteLoop, Exact, WriteIteration;
    LoopOnce(c, data, env, accepts);
    if Iterates(c, data, env, accepts) {
      var w := Reach(c, env);
      var c' := SetWin(c, w.w);
      var rest := data[Chunk(c', data)..];
      hide Chunk, Reach;
      KeepsIds(c', data);
      WriteIsExact(WriteIteration(c', data).c, rest, w.rest, accepts - 1);
      ExactIteration(c, c', data, WriteLoop(WriteIteration(c', data).c, rest, w.rest, accepts - 1));
    } else {
      ExactNothing(WriteLoop(c, data, env, accepts), c, data);
    }
  }

  lemma KeepsIds(c: Chan, data: seq<byte>)
    ensures var c' := WriteIteration(c, data).c;
            c'.remoteId == c.remoteId && c'.maxRemotePayload == c.maxRemotePayload
  {
  }

  /** One iteration in front of the rest of a call. */
  lemma ExactIteration(c0: Chan, c: Chan, data: seq<byte>, r: Written)
    requires data != [] && c.remoteWin > 0 && !c.winClosed
    requires c.remoteId == c0.remoteId && c.maxRemotePayload == c0.maxRemotePayload
    requires Exact(r, WriteIteration(c, data).c, data[Chunk(c, data)..])
    ensures var f, k := WriteIteration(c, data), Chunk(c, data);
            Exact(r.(out := f.out + r.out, n := k + r.n), c0, data)
  {
    hide WriteIteration, Chunk, Exact;
    GoodIteration(c, data);
    var f, k := WriteIteration(c, data), Chunk(c, data);
    ExactJoin(f.out[0], k, r, f.c, c0, data);
  }

  lemma ExactNothing(w: Written, c: Chan, data: seq<byte>)
    requires w.out == [] && w.n == 0 && (w.how == DONE <==> data == [])
    ensures Exact(w, c, data)
  {
  }

  /** What WriteIsExact says of what a call leaves behind. */
  predicate Exact(w: Written, c: Chan, data: seq<byte>) {
    && w.n <= |data|
    && Link.Total(w.out).data == data[..w.n]
    && (w.how == DONE <==> w.n == |data|)
    && AllGood(w.out, c, |data|)
  }

  /** One chunk in front of the rest of a call. */
  lemma ExactJoin(m: Message, k: nat, r: Written, c: Chan, c': Chan, data: seq<byte>)
    requires k <= |data| && GoodChunk(m, c', |data|) && Payload(m) == data[..k] && Exact(r, c, data[k..])
    requires c.remoteId == c'.remoteId && c.maxRemotePayload == c'.maxRemotePayload
    ensures Exact(r.(out := [m] + r.out, n := k + r.n), c', data)
  {
    TotalFirst(m, r.out);
    assert data[..k] + data[k..][..r.n] == data[..k + r.n];
    AllGoodFirst(m, r.out, c, c', |data[k..]|, |data|);
  }

  /** The loop takes another turn. */
  predicate Iterates(c: Chan, data: seq<byte>, env: seq<seq<Credit.Event>>, accepts: nat) {
    data != [] && env != [] && !Reach(c, env).waiting && !Reach(c, env).w.closed && accepts > 0
  }

  lemma LoopOnce(c: Chan, data: seq<byte>, env: seq<seq<Credit.Event>>, accepts: nat)
    ensures var w := WriteLoop(c, data, env, accepts);
            if Iterates(c, data, env, accepts) then
              var c' := SetWin(c, Reach(c, env).w);
              var f, k := WriteIteration(c', data), Chunk(c', data);
              var r := WriteLoop(f.c, data[k..], Reach(c, env).rest, accepts - 1);
              w == r.(out := f.out + r.out, n := k + r.n)
            else w.out == [] && w.n == 0 && (w.how == DONE <==> data == [])
  {
  }

  predicate AllGood(ms: seq<Message>, c: Chan, len: nat) {
    forall m | m in ms :: GoodChunk(m, c, len)
  }

  lemma AllGoodFirst(m: Message, rest: seq<Message>, c: Chan, c': Chan, len: nat, len': nat)
    requires GoodChunk(m, c', len') && AllGood(rest, c, len) && len <= len'
    requires c.remoteId == c'.remoteId && c.maxRemotePayload == c'.maxRemotePayload
    ensures AllGood([m] + rest, c', len')
  {
  }

  /**
   Payloads that take all they can. When the turn of one comes, it is within the credit there is, the packet
   size, and what is left of the slice (below 2^32), and if it is shorter than the last two it has used up the
   credit there was. `env` is what other goroutines do to the window before each turn and while it waits.
   */
  predicate TakesAll(out: seq<Message>, w: Credit.Win, left: nat, packet: u32, env: seq<seq<Credit.Event>>)
    decreases |out|
  {
    out == [] || (env != [] &&
      var r := Credit.Await(Credit.After(w, env[0]), env[1..]);
      var k := |Payload(out[0])|;
      && !r.waiting && !r.w.closed
      && k <= r.w.win && k <= packet && k <= left % 0x1_0000_0000
      && (k < packet && k < left % 0x1_0000_0000 ==> k == r.w.win)
      && TakesAll(out[1..], r.w.(win := r.w.win - k), left - k, packet, r.rest))
  }

  /** Every payload of a call takes all it can. */
  lemma {:induction false} WriteTakesAll(c: Chan, data: seq<byte>, env: seq<seq<Credit.Event>>, accepts: nat)
    ensures TakesAll(WriteLoop(c, data, env, accepts).out, WinOf(c), |data|, c.maxRemotePayload, env)
    decreases |env|
  {
    if data != [] && env != [] {
      LoopTurns(c, data, env, accepts);
      TurnIs(c, data, env, accepts);
      var t, w := TurnOf(c, data, env, accepts), Reach(c, env);
      hide WriteLoop, TurnOf, Credit.Await, Credit.After;
      if !t.waiting && t.status.Fine? {
        WriteTakesAll(t.c, data[t.k..], t.rest, accepts - 1);
        var m, rest := Data(c.remoteId, t.k, data[..t.k]), WriteLoop(t.c, data[t.k..], t.rest, accepts - 1).out;
        assert ([m] + rest)[1..] == rest;
      }
    }
  }

  /** How a call ends: with io.EOF on a closed window, with an error when the transport takes no more. It
      changes nothing but the window. */
  lemma {:induction false} WriteEnds(c: Chan, data: seq<byte>, env: seq<seq<Credit.Event>>, accepts: nat)
    ensures var w := WriteLoop(c, data, env, accepts);
            && |w.out| <= accepts
            && w.c == SetWin(c, WinOf(w.c))
            && (w.how == Returned(EndOfFile) ==> w.c.winClosed)
            && (w.how == Returned(Broken) ==> |w.out| == accepts && !w.c.winClosed)
    decreases |env|
  {
    if data != [] && env != [] {
      LoopTurns(c, data, env, accepts);
      TurnEnds(c, data, env, accepts);
      var t := TurnOf(c, data, env, accepts);
      hide WriteLoop, TurnOf, SetWin, WinOf;
      if !t.waiting && t.status.Fine? {
        WriteEnds(t.c, data[t.k..], t.rest, accepts - 1);
        SetTwice(c, t.c, WriteLoop(t.c, data[t.k..], t.rest, accepts - 1).c);
      }
    }
  }

  /** What a call of `Write` that is not refused promises. */
  lemma WriteLaws(c: Chan, data: seq<byte>, env: seq<seq<Credit.Event>>, accepts: nat)
    ensures var w := WriteLoop(c, data, env, accepts);
            && w.n <= |data| && Link.Total(w.out).data == data[..w.n]
            && (forall m | m in w.out ::
                  m.Data? && m.channelId == c.remoteId && m.length == |m.data| && m.length <= c.maxRemotePayload)
            && TakesAll(w.out, Credit.Win(c.remoteWin, c.winClosed), |data|, c.maxRemotePayload, env)
            && (w.how == Returned(Fine) <==> w.n == |data|)
            && (w.how == Returned(EndOfFile) ==> w.c.winClosed)
            && (w.how == Returned(Broken) ==> |w.out| == accepts && !w.c.winClosed)
            && |w.out| <= accepts
  {
    hide WriteLoop, TakesAll, Link.Total;
    WriteIsExact(c, data, env, accepts);
    WriteTakesAll(c, data, env, accepts);
    WriteEnds(c, data, env, accepts);
  }

  lemma TurnEnds(c: Chan, data: seq<byte>, env: seq<seq<Credit.Event>>, accepts: nat)
    requires data != [] && env != []
    ensures var t := TurnOf(c, data, env, accepts);
            && t.c == SetWin(c, WinOf(t.c))
            && (!t.waiting && t.status.EndOfFile? ==> t.c.winClosed)
            && (!t.waiting && t.status.Broken? ==> accepts == 0 && !t.c.winClosed)
  {
    hide TurnOf, Reach;
    TurnIs(c, data, env, accepts);
  }

  lemma SetTwice(a: Chan, b: Chan, c: Chan)
    requires b == SetWin(a, WinOf(b)) && c == SetWin(b, WinOf(c))
    ensures c == SetWin(a, WinOf(c))
  {
  }

  function Supply(es: seq<Credit.Event>): nat
    decreases |es|
  {
    if es == [] then 0 else (if es[0].Credit? then es[0].n else 0) + Supply(es[1..])
  }

  function SupplyAll(env: seq<seq<Credit.Event>>): nat
    decreases |env|
  {
    if env == [] then 0 else Supply(env[0]) + SupplyAll(env[1..])
  }

  lemma {:induction false} AfterSupply(w: Credit.Win, es: seq<Credit.Event>)
    ensures Credit.After(w, es).win <= w.win + Supply(es)
    decreases |es|
  {
    if es != [] {
      if es[0].Credit? { Credit.AddExact(w.win, es[0].n); }
      AfterSupply(Credit.Act(w, es[0]), es[1..]);
    }
  }

  lemma {:induction false} AwaitSupply(w: Credit.Win, env: seq<seq<Credit.Event>>)
    ensures var r := Credit.Await(w, env);
            r.w.win + SupplyAll(r.rest) <= w.win + SupplyAll(env)
    decreases |env|
  {
    if env != [] && w.win == 0 && !w.closed {
      AfterSupply(w, env[0]);
      AwaitSupply(Credit.After(w, env[0]), env[1..]);
    }
  }

  /** A call sends no more than the credit there was and the credit that came while it ran. */
  lemma {:induction false} WriteWithinCredit(c: Chan, data: seq<byte>, env: seq<seq<Credit.Event>>, accepts: nat)
    ensures var w := WriteLoop(c, data, env, accepts);
            w.n + w.c.remoteWin <= c.remoteWin + SupplyAll(env)
    decreases |env|
  {
    if data != [] && env != [] {
      LoopTurns(c, data, env, accepts);
      TurnSupply(c, data, env, accepts);
      hide WriteLoop, TurnOf, SupplyAll;
      var t := TurnOf(c, data, env, accepts);
      if !t.waiting && t.status.Fine? {
        WriteWithinCredit(t.c, data[t.k..], t.rest, accepts - 1);
      }
    }
  }

  lemma TurnSupply(c: Chan, data: seq<byte>, env: seq<seq<Credit.Event>>, accepts: nat)
    requires data != [] && env != []
    ensures var t := TurnOf(c, data, env, accepts);
            t.k + t.c.remoteWin + SupplyAll(t.rest) <= c.remoteWin + SupplyAll(env)
  {
    AfterSupply(WinOf(c), env[0]);
    AwaitSupply(Credit.After(WinOf(c), env[0]), env[1..]);
    TurnIs(c, data, env, accepts);
  }

  /** `min` truncates the length of the slice to 32 bits, so no chunk crosses a multiple of 2^32: a
      slice of 2^32 bytes or more is never sent to the end. */
  lemma {:induction false} HugeWriteNeverEnds(c: Chan, data: seq<byte>, env: seq<seq<Credit.Event>>, accepts: nat)
    requires |data| >= TWO32
    ensures var w := WriteLoop(c, data, env, accepts);
            w.how != DONE && w.n <= |data| - TWO32
    decreases |env|
  {
    if env != [] && !Reach(c, env).waiting && !Reach(c, env).w.closed && accepts > 0 {
      var w := Reach(c, env);
      var c' := SetWin(c, w.w);
      var k := Chunk(c', data);
      assert k <= |data| % TWO32 <= |data| - TWO32;
      HugeWriteNeverEnds(WriteIteration(c', data).c, data[k..], w.rest, accepts - 1);
    }
  }

  lemma {:induction false} ShortWriteCanEnd(c: Chan, data: seq<byte>)
    returns (env: seq<seq<Credit.Event>>, accepts: nat)
    requires |data| < TWO32 && 0 < c.maxRemotePayload && !c.winClosed
    ensures WriteLoop(c, data, env, accepts).how == DONE
    decreases |data|
  {
    env, accepts := [], 0;
    if data != [] {
      var e := Credit.Event.Credit(1);
      var w := Credit.Act(WinOf(c), e);
      Credit.AddExact(c.remoteWin, 1);
      Credit.One(WinOf(c), e);
      var c' := SetWin(c, w);
      var k := Chunk(c', data);
      var rest;
      rest, accepts := ShortWriteCanEnd(WriteIteration(c', data).c, data[k..]);
      env := [[e]] + rest;
      accepts := accepts + 1;
      assert Reach(c, env) == Credit.Wait(w, [], rest, false);
    }
  }

  predicate Finishes(c: Chan, data: seq<byte>, env: seq<seq<Credit.Event>>, accepts: nat) {
    WriteLoop(c, data, env, accepts).how == DONE
  }

  /** Whatever the other goroutines do and however long the transport lasts, a call can return without an
      error exactly when the slice is shorter than 2^32 bytes. */
  lemma WriteEndsIff(c: Chan, data: seq<byte>)
    requires 0 < c.maxRemotePayload && !c.winClosed
    ensures (exists env, accepts :: Finishes(c, data, env, accepts)) <==> |data| < TWO32
  {
    if |data| < TWO32 {
      var env, accepts := ShortWriteCanEnd(c, data);
      assert Finishes(c, data, env, accepts);
    } else {
      forall env, accepts ensures !Finishes(c, data, env, accepts) {
        HugeWriteNeverEnds(c, data, env, accepts);
      }
    }
  }
}
