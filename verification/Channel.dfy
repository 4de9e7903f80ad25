/** The channel of golang/mux/channel.go as an object. */
module Channel {
  import opened Wrappers
  import opened Wire
  import opened Endpoint
  import Writing
  import Buffer
  import ChanList
  import Credit
  import Link
  import Table
  import Window

  /** The session's encoder, as the queue of messages it has put on the transport. The transport takes
      `accepts` more before it fails; what has failed stays so. */
  class Encoder {
    var out: seq<Message>
    var accepts: nat

    constructor (accepts: nat)
      ensures out == [] && this.accepts == accepts
    {
      out, this.accepts := [], accepts;
    }

    method Encode(m: Message) returns (ok: bool)
      modifies this
      ensures ok == (old(accepts) > 0)
      ensures out == old(out) + if ok then [m] else []
      ensures accepts == old(accepts) - if ok then 1 else 0
    {
      ok := accepts > 0;
      if ok {
        out, accepts := out + [m], accepts - 1;
      }
    }
  }

  class Channel {
    var localId: u32
    var remoteId: u32
    var maxIncomingPayload: u32
    var maxRemotePayload: u32
    const direction: Direction
    const enc: Encoder
    const chanList: ChanList.ChanList<Channel>
    var msg: seq<Message>
    var msgClosed: bool
    var sentEOF: bool
    const remoteWin: Window.Window
    const pending: Buffer.Buffer
    var myWindow: u32
    var sentClose: bool

    ghost predicate Valid()
      reads this, remoteWin, pending, pending.spine
    {
      remoteWin.Valid() && pending.Valid()
    }

    ghost function Repr(): set<object>
      reads this, pending
    {
      {this, remoteWin} + pending.Repr()
    }

    /** The value this object stands for. */
    ghost function Model(): Chan
      reads this, remoteWin, pending, pending.spine
    {
      Chan(localId, remoteId, maxIncomingPayload, maxRemotePayload, direction, msg, msgClosed,
           sentEOF, sentClose, remoteWin.win, remoteWin.closed,
           pending.Model().contents, pending.Model().closed, myWindow)
    }

    constructor (direction: Direction, enc: Encoder, chanList: ChanList.ChanList<Channel>)
      ensures Valid() && fresh(Repr())
      ensures Model() == NewChan(0, direction)
      ensures myWindow == 0x20_0000 && pending.Model() == Buffer.Bytes([], false)
      ensures remoteId == maxIncomingPayload == maxRemotePayload == 0 && msg == [] && !msgClosed
      ensures !sentEOF && !sentClose && remoteWin.win == 0 && !remoteWin.closed && this.direction == direction
      ensures this.enc == enc && this.chanList == chanList
    {
      this.direction, this.enc, this.chanList := direction, enc, chanList;
      localId, remoteId, maxIncomingPayload, maxRemotePayload := 0, 0, 0, 0;
      msg, msgClosed, sentEOF, sentClose := [], false, false, false;
      myWindow := CHANNEL_WINDOW_SIZE;
      remoteWin := new Window.Window();
      pending := new Buffer.Buffer();
    }

    /** The transport, which had taken `out` and took `accepts` more, has been given some messages. */
    ghost predicate Sent(out: seq<Message>, accepts: nat, ms: seq<Message>)
      reads this, enc
    {
      enc.out == out + Taken(ms, accepts) && enc.accepts == accepts - |Taken(ms, accepts)|
    }

    /** What a call leaves behind: the new channel, what it has sent as far as the transport takes it, and how
        it has ended. `out` and `accepts` are the transport before the call. */
    ghost predicate Did(e: Effect, status: Status, out: seq<Message>, accepts: nat)
      reads this, remoteWin, pending, pending.spine, enc
    {
      Model() == e.c && Sent(out, accepts, e.out) && status == StatusOf(e, accepts)
    }

    method Send(m: Message) returns (status: Status)
      requires Valid()
      modifies this`sentClose, enc
      ensures Valid() && Did(Endpoint.Send(old(Model()), m), status, old(enc.out), old(enc.accepts))
      ensures status == EndOfFile <==> old(sentClose)
      ensures status == Fine <==> !old(sentClose) && old(enc.accepts) > 0
      ensures enc.out == old(enc.out) + if status == Fine then [m] else []
      ensures enc.accepts == old(enc.accepts) - if status == Fine then 1 else 0
      ensures sentClose == (old(sentClose) || m.Close?)
    {
      assert [m][..0] == [];
      if sentClose {
        assert enc.out + [] == enc.out;
        return EndOfFile;
      }
      if m.Close? {
        sentClose := true;
      }
      var ok := enc.Encode(m);
      return if ok then Fine else Broken;
    }

    method CloseWrite() returns (status: Status)
      requires Valid()
      modifies this`sentEOF, this`sentClose, enc
      ensures Valid() && Did(Apply(old(Model()), UserOp.CloseWrite), status, old(enc.out), old(enc.accepts))
      ensures status == EndOfFile <==> old(sentClose)
      ensures status == Fine <==> !old(sentClose) && old(enc.accepts) > 0
      ensures enc.out == old(enc.out) + if status == Fine then [Eof(remoteId)] else []
      ensures enc.accepts == old(enc.accepts) - if status == Fine then 1 else 0
      ensures sentEOF && sentClose == old(sentClose)
    {
      sentEOF := true;
      status := Send(Eof(remoteId));
    }

    method Close() returns (status: Status)
      requires Valid()
      modifies this`sentClose, enc
      ensures Valid() && Did(Apply(old(Model()), UserOp.Close), status, old(enc.out), old(enc.accepts))
      ensures status == EndOfFile <==> old(sentClose)
      ensures status == Fine <==> !old(sentClose) && old(enc.accepts) > 0
      ensures enc.out == old(enc.out) + if status == Fine then [Message.Close(remoteId)] else []
      ensures enc.accepts == old(enc.accepts) - if status == Fine then 1 else 0
      ensures sentClose
    {
      status := Send(Message.Close(remoteId));
    }

    /** Reserve credit for a chunk, after what other goroutines do to the window first. */
    method Obtain(left: seq<byte>, env: seq<seq<Credit.Event>>)
      returns (k: u32, eof: bool, rest: seq<seq<Credit.Event>>, waiting: bool)
      requires Valid() && left != [] && env != []
      modifies remoteWin
      ensures Valid()
      ensures var w := Writing.Reach(old(Model()), env);
              var c := Writing.SetWin(old(Model()), w.w);
              && rest == w.rest && waiting == w.waiting
              && k == (if waiting then 0 else Chunk(c, left)) && eof == (!waiting && c.winClosed)
              && Model() == c.(remoteWin := c.remoteWin - k)
    {
      remoteWin.Others(env[0]);
      var space := Credit.Min(maxRemotePayload, |left|);
      k, eof, rest, waiting := remoteWin.Reserve(space, env[1..]);
    }

    /** The two steps of a turn. */
    method TakeTurn(left: seq<byte>, env: seq<seq<Credit.Event>>)
      returns (k: u32, status: Status, rest: seq<seq<Credit.Event>>, waiting: bool)
      requires Valid() && left != [] && env != []
      modifies remoteWin, enc
      ensures Valid()
      ensures var t := Writing.TurnOf(old(Model()), left, env, old(enc.accepts));
              && Model() == t.c && enc.out == old(enc.out) + t.out && enc.accepts == old(enc.accepts) - |t.out|
              && k == t.k && rest == t.rest && status == t.status && waiting == t.waiting
    {
      Writing.TurnIs(Model(), left, env, enc.accepts);
      var eof;
      k, eof, rest, waiting := Obtain(left, env);
      hide Writing.Reach, Writing.TurnOf, Chunk;
      status := if eof then EndOfFile else Fine;
      assert enc.out + [] == enc.out;
      if !waiting && !eof {
        status := Emit(Data(remoteId, k, left[..k]));
      }
    }

    /** One turn of the loop of `Write`. It finds window w: the first list of events has passed, and this
        goroutine has waited as long as it had to. */
    method WriteOnce(left: seq<byte>, env: seq<seq<Credit.Event>>)
      returns (k: u32, status: Status, rest: seq<seq<Credit.Event>>, waiting: bool)
      requires Valid() && left != [] && env != []
      modifies remoteWin, enc
      ensures Valid() && k <= |left|
      ensures var t := Writing.TurnOf(old(Model()), left, env, old(enc.accepts));
              && Model() == t.c && enc.out == old(enc.out) + t.out && enc.accepts == old(enc.accepts) - |t.out|
              && k == t.k && rest == t.rest && status == t.status && waiting == t.waiting
      ensures var w := Credit.Await(Credit.After(old(Credit.Win(remoteWin.win, remoteWin.closed)), env[0]), env[1..]);
              && waiting == w.waiting && rest == w.rest
              && remoteWin.closed == w.w.closed && remoteWin.win + k == w.w.win
              && (waiting ==> k == 0)
              && (!waiting ==>
                    && k <= maxRemotePayload && k <= |left| % 0x1_0000_0000
                    && (k == maxRemotePayload || k == |left| % 0x1_0000_0000 || remoteWin.win == 0))
              && status == (if waiting then Fine else if w.w.closed then EndOfFile
                            else if old(enc.accepts) == 0 then Broken else Fine)
      ensures var sends := !waiting && status == Fine;
              && enc.out == old(enc.out) + (if sends then [Data(remoteId, k, left[..k])] else [])
              && enc.accepts == old(enc.accepts) - if sends then 1 else 0
    {
      hide Writing.TurnOf, Credit.Await, Credit.After;
      ghost var w := Credit.Await(Credit.After(Credit.Win(remoteWin.win, remoteWin.closed), env[0]), env[1..]);
      Writing.TurnFinds(Model(), left, env, enc.accepts, w);
      k, status, rest, waiting := TakeTurn(left, env);
    }

    method Emit(m: Message) returns (status: Status)
      requires Valid()
      modifies enc
      ensures Valid() && Model() == old(Model())
      ensures status == if old(enc.accepts) > 0 then Fine else Broken
      ensures enc.out == (if old(enc.accepts) > 0 then old(enc.out) + [m] else old(enc.out))
      ensures enc.accepts == if old(enc.accepts) > 0 then old(enc.accepts) - 1 else 0
    {
      var ok := enc.Encode(m);
      assert [m][..0] == [] && old(enc.out) + [] == old(enc.out);
      status := if ok then Fine else Broken;
    }

    /** `env` is what other goroutines do to the credit while the call runs. */
    method Write(data: seq<byte>, env: seq<seq<Credit.Event>>) returns (n: nat, how: Writing.Outcome)
      requires Valid()
      modifies remoteWin, enc
      ensures var w := Writing.WriteCall(old(Model()), data, env, old(enc.accepts));
              && Valid() && Model() == w.c && enc.out == old(enc.out) + w.out
              && n == w.n && how == w.how
      ensures sentEOF ==>
                && n == 0 && how == Writing.Returned(EndOfFile) && Model() == old(Model())
                && enc.out == old(enc.out) && enc.accepts == old(enc.accepts)
      ensures !sentEOF ==>
                && old(enc.out) <= enc.out && n <= |data|
                && var sent := enc.out[|old(enc.out)|..];
                && Link.Total(sent).data == data[..n]
                && (forall m | m in sent ::
                      m.Data? && m.channelId == remoteId && m.length == |m.data| && m.length <= maxRemotePayload)
                && Writing.TakesAll(
                     sent, old(Credit.Win(remoteWin.win, remoteWin.closed)), |data|, maxRemotePayload, env)
                && enc.accepts == old(enc.accepts) - |sent|
                && (how == Writing.Returned(Fine) <==> n == |data|)
                && (how == Writing.Returned(EndOfFile) ==> remoteWin.closed)
                && (how == Writing.Returned(Broken) ==> enc.accepts == 0 && !remoteWin.closed)
    {
      if sentEOF {
        assert enc.out + [] == enc.out;
        return 0, Writing.Returned(EndOfFile);
      }
      ghost var c, out, accepts := Model(), enc.out, enc.accepts;
      Writing.WriteLaws(c, data, env, accepts);
      n, how := WriteOn(data, env);
      assert enc.out[|out|..] == Writing.WriteLoop(c, data, env, accepts).out;
    }

    /** One turn, in a call that comes to w. */
    method Advance(
      ghost w: Writing.Written, ghost sent: seq<Message>, n: nat, left: seq<byte>, env: seq<seq<Credit.Event>>)
      returns (k: u32, status: Status, rest: seq<seq<Credit.Event>>, waiting: bool, ghost more: seq<Message>)
      requires Valid() && left != [] && env != []
      requires Writing.Continues(w, sent, n, Model(), left, env, enc.accepts)
      modifies remoteWin, enc
      ensures Valid() && enc.out == old(enc.out) + more && enc.accepts == old(enc.accepts) - |more|
      ensures |rest| < |env| && k <= |left|
      ensures if waiting then w == Writing.Written(Model(), sent + more, n, Writing.Running)
              else if !status.Fine? then w == Writing.Written(Model(), sent + more, n, Writing.Returned(status))
              else Writing.Continues(w, sent + more, n + k, Model(), left[k..], rest, enc.accepts)
    {
      hide Writing.TurnOf, Writing.Continues;
      ghost var t := Writing.TurnOf(Model(), left, env, enc.accepts);
      Writing.Proceed(w, sent, n, Model(), left, env, enc.accepts);
      assert t.out == [] ==> sent + t.out == sent;
      k, status, rest, waiting := WriteOnce(left, env);
      more := t.out;
    }

    method WriteOn(data: seq<byte>, env: seq<seq<Credit.Event>>) returns (n: nat, how: Writing.Outcome)
      requires Valid()
      modifies remoteWin, enc
      ensures var w := Writing.WriteLoop(old(Model()), data, env, old(enc.accepts));
              && Valid() && Model() == w.c && enc.out == old(enc.out) + w.out
              && enc.accepts == old(enc.accepts) - |w.out| && n == w.n && how == w.how
    {
      hide Writing.WriteLoop, Writing.Continues;
      n := 0;
      var left, rest := data, env;
      ghost var w := Writing.WriteLoop(Model(), data, env, enc.accepts);
      ghost var sent: seq<Message>, more := [], [];
      Writing.Begin(Model(), data, env, enc.accepts);
      assert enc.out + [] == enc.out;
      while left != [] && rest != []
        invariant Valid() && enc.out == old(enc.out) + sent && enc.accepts == old(enc.accepts) - |sent|
        invariant Writing.Continues(w, sent, n, Model(), left, rest, enc.accepts)
        decreases |rest|
      {
        var k, status, waiting;
        k, status, rest, waiting, more := Advance(w, sent, n, left, rest);
        Regroup(old(enc.out), sent, more);
        sent := sent + more;
        if waiting {
          return n, Writing.Running;
        }
        if !status.Fine? {
          return n, Writing.Returned(status);
        }
        n := n + k;
        left := left[k..];
      }
      Writing.End(w, sent, n, Model(), left, rest, enc.accepts);
      how := if left == [] then Writing.DONE else Writing.Running;
    }

    method AdjustWindow(n: u32) returns (status: Status)
      requires Valid()
      modifies this`myWindow, this`sentClose, enc
      ensures Valid() && Did(Endpoint.AdjustWindow(old(Model()), n), status, old(enc.out), old(enc.accepts))
      ensures status == EndOfFile <==> old(sentClose)
      ensures status == Fine <==> !old(sentClose) && old(enc.accepts) > 0
      ensures enc.out == old(enc.out) + if status == Fine then [WindowAdjust(remoteId, n)] else []
      ensures enc.accepts == old(enc.accepts) - if status == Fine then 1 else 0
      ensures myWindow == (old(myWindow) + n) % 0x1_0000_0000 && sentClose == old(sentClose)
    {
      myWindow := (myWindow + n) % TWO32;
      status := Send(WindowAdjust(remoteId, n));
    }

    /** The internal `close`. */
    method Shut()
      requires Valid()
      modifies this`msgClosed, this`sentClose, pending`closed, remoteWin
      ensures Valid() && Model() == Endpoint.Shut(old(Model()))
      ensures pending.closed && msgClosed && sentClose && remoteWin.closed && remoteWin.win == old(remoteWin.win)
    {
      pending.Eof();
      msgClosed := true;
      sentClose := true;
      remoteWin.Close();
    }

    /** The buffer as a reader of `len` bytes finds it; a read of nothing does not look. */
    static ghost function Found(c: Chan, len: nat, env: seq<seq<Buffer.Event>>): Buffer.Wait {
      var b := Buffer.Bytes(c.pending, c.pendingClosed);
      if len == 0 then Buffer.Wait(b, env, false) else Buffer.Await(b, env)
    }

    /** The channel with buffer b. */
    static ghost function WithBuffer(c: Chan, b: Buffer.Bytes): Chan {
      c.(pending := b.contents, pendingClosed := b.closed)
    }

    /** The part of `Read` that reads the buffer. */
    method ReadPending(dst: array<byte>, env: seq<seq<Buffer.Event>>) returns (n: nat, eof: bool, waiting: bool)
      requires Valid()
      modifies pending.Repr(), dst
      ensures Valid() && fresh(Repr() - old(Repr()))
      ensures var w := Found(old(Model()), dst.Length, env);
              && waiting == w.waiting && eof == (dst.Length > 0 && Buffer.Buffer.AtEnd(w.b))
              && n == |Buffer.Buffer.Taken(w.b, dst.Length)| <= dst.Length
              && Model() == WithBuffer(old(Model()), Buffer.Buffer.Left(w.b, dst.Length))
              && dst[..n] == Buffer.Buffer.Taken(w.b, dst.Length)
      ensures enc.out == old(enc.out) && enc.accepts == old(enc.accepts)
    {
      hide Buffer.Await, Buffer.Buffer.Taken, Buffer.Buffer.Left, Buffer.Buffer.AtEnd;
      Buffer.Buffer.NothingTaken(pending.Model());
      var rest;
      n, eof, rest, waiting := pending.Read(dst, env);
    }

    /** What is left of a read of a channel whose n bytes are taken: to give the credit back, when there are
        any. The io.EOF of an adjustment that a Close has stopped is not passed on. */
    static function Rest(c: Chan, n: nat, eof: bool): Effect {
      if n == 0 then Effect(c, [], [], eof)
      else
        var a := Endpoint.AdjustWindow(c, n % TWO32);
        Effect(a.c, a.out, [], false)
    }

    static lemma ReadIs(c: Chan, w: Buffer.Wait, len: nat)
      ensures var bytes := Buffer.Buffer.Taken(w.b, len);
              ReadSome(WithBuffer(c, w.b), len) ==
              var left := WithBuffer(c, Buffer.Buffer.Left(w.b, len));
              Rest(left, |bytes|, len > 0 && Buffer.Buffer.AtEnd(w.b)).(bytes := bytes)
    {
    }

    method Conclude(n: nat, eof: bool) returns (status: Status)
      requires Valid()
      modifies this`myWindow, this`sentClose, enc
      ensures Valid() && Repr() == old(Repr())
      ensures Did(Rest(old(Model()), n, eof), status, old(enc.out), old(enc.accepts))
    {
      status := if eof then EndOfFile else Fine;
      if n > 0 {
        status := AdjustWindow(n % TWO32);
        if status.EndOfFile? {
          status := Fine;
        }
      } else {
        assert enc.out + [] == enc.out;
      }
    }

    /** The two steps of a read. */
    method TakeAndAdjust(dst: array<byte>, env: seq<seq<Buffer.Event>>)
      returns (n: nat, status: Status, waiting: bool)
      requires Valid()
      modifies this`myWindow, this`sentClose, pending.Repr(), enc, dst
      ensures Valid() && fresh(Repr() - old(Repr()))
      ensures var w := Found(old(Model()), dst.Length, env);
              var e := ReadSome(WithBuffer(old(Model()), w.b), dst.Length);
              && waiting == w.waiting
              && Did(e, status, old(enc.out), old(enc.accepts))
              && n == |e.bytes| <= dst.Length && dst[..n] == e.bytes
    {
      hide ReadSome, Rest, Found, WithBuffer, Did, Buffer.Buffer.Taken, Buffer.Buffer.Left, Buffer.Buffer.AtEnd;
      var eof;
      ghost var c, w := Model(), Found(Model(), dst.Length, env);
      ReadIs(c, w, dst.Length);
      n, eof, waiting := ReadPending(dst, env);
      ghost var r, bytes := Rest(Model(), n, eof), Buffer.Buffer.Taken(w.b, dst.Length);
      status := Conclude(n, eof);
      AnyBytes(r, bytes, status, old(enc.out), old(enc.accepts));
    }

    /** What a read of `len` bytes that finds buffer b leaves behind, field by field. */
    static lemma ReadSays(c: Chan, b: Buffer.Bytes, len: nat)
      ensures var e := ReadSome(WithBuffer(c, b), len);
              var n := if len < |b.contents| then len else |b.contents|;
              && e.bytes == b.contents[..n] && e.eof == (len > 0 && b.contents == [] && b.closed)
              && e.c.pending == b.contents[n..] && e.c.pendingClosed == b.closed && e.c.sentClose == c.sentClose
              && e.c.myWindow == (if n > 0 then Sum32(c.myWindow, |e.bytes|) else c.myWindow)
              && e.out == if n > 0 && !c.sentClose then [WindowAdjust(c.remoteId, Uint32(|e.bytes|))] else []
    {
    }

    /** A call that sends one message at most. */
    lemma DidOne(e: Effect, status: Status, out: seq<Message>, accepts: nat)
      requires Did(e, status, out, accepts) && |e.out| <= 1
      ensures var sends := e.out != [] && accepts > 0;
              && Model() == e.c && enc.out == out + (if sends then e.out else [])
              && enc.accepts == accepts - (if sends then 1 else 0)
              && status == if e.eof then EndOfFile else if e.out != [] && accepts == 0 then Broken else Fine
    {
    }

    /**
     A read finds buffer b: the one there is, or, when there is neither data nor an end, the first one later on
     that has some. `env` is what the session's loop puts into the buffer each time the call waits.
     */
    method Read(dst: array<byte>, env: seq<seq<Buffer.Event>>) returns (n: nat, status: Status, waiting: bool)
      requires Valid()
      modifies this`myWindow, this`sentClose, pending.Repr(), enc, dst
      ensures Valid() && fresh(Repr() - old(Repr()))
      ensures var w := Found(old(Model()), dst.Length, env);
              var e := ReadSome(WithBuffer(old(Model()), w.b), dst.Length);
              Did(e, status, old(enc.out), old(enc.accepts)) && n == |e.bytes| <= dst.Length && dst[..n] == e.bytes
      ensures sentClose == old(sentClose) && myWindow == if n > 0 then Sum32(old(myWindow), n) else old(myWindow)
      ensures dst.Length == 0 ==> n == 0 && status == Fine && !waiting && pending.Model() == old(pending.Model())
      ensures dst.Length > 0 ==>
                var b := Buffer.Await(old(pending.Model()), env).b;
                && n == (if dst.Length < |b.contents| then dst.Length else |b.contents|)
                && dst[..n] == b.contents[..n] && pending.Model() == Buffer.Bytes(b.contents[n..], b.closed)
                && waiting == (n == 0 && !b.closed)
                && (n == 0 ==> status == if b.closed then EndOfFile else Fine)
      ensures var tells := n > 0 && !old(sentClose) && old(enc.accepts) > 0;
              && enc.out == old(enc.out) + (if tells then [WindowAdjust(remoteId, Uint32(n))] else [])
              && enc.accepts == old(enc.accepts) - (if tells then 1 else 0)
              && (n > 0 ==> status == if tells || old(sentClose) then Fine else Broken)
    {
      ghost var c, w := Model(), Found(Model(), dst.Length, env);
      ReadSays(c, w.b, dst.Length);
      ghost var e := ReadSome(WithBuffer(c, w.b), dst.Length);
      hide ReadSome, WithBuffer, Buffer.Await, Uint32, Sum32, Did;
      n, status, waiting := TakeAndAdjust(dst, env);
      DidOne(e, status, old(enc.out), old(enc.accepts));
    }

    /** The bytes a call returns are not the channel's business. */
    lemma AnyBytes(e: Effect, bytes: seq<byte>, status: Status, out: seq<Message>, accepts: nat)
      requires Did(e, status, out, accepts)
      ensures Did(e.(bytes := bytes), status, out, accepts)
    {
    }

    /** The slots left in use by a handler. */
    static ghost function Slots(chans: seq<Option<Channel>>, h: Handled): seq<Option<Channel>> {
      if h.freed.Some? then Table.Remove(chans, h.freed.value) else chans
    }

    /** What a handler whose steps happen in a row leaves behind: the new channel, what it has sent as far as
        the transport takes it, the slot it has freed, and its error. */
    ghost predicate Handles(
      h: Handled, err: Option<Error>, out: seq<Message>, accepts: nat, chans: seq<Option<Channel>>)
      reads this, remoteWin, pending, pending.spine, enc, chanList
    {
      Model() == h.c && err == h.err && Sent(out, accepts, h.out) && chanList.chans == Slots(chans, h)
    }

    /** Slot id is empty, every other one is as it was among `chans`. */
    ghost predicate Freed(id: u32, chans: seq<Option<Channel>>)
      reads chanList
    {
      && |chanList.chans| == |chans|
      && (forall i | 0 <= i < |chans| && i != id :: chanList.chans[i] == chans[i])
      && (id < |chans| < 0x1_0000_0000 ==> chanList.chans[id] == None)
    }

    /** Data that passes the three tests. */
    method TakeIn(m: Message)
      requires Valid() && m.Data? && m.length <= myWindow
      modifies this`myWindow, pending.Repr()
      ensures Valid() && fresh(Repr() - old(Repr()))
      ensures Model() == old(Model()).(myWindow := old(myWindow) - m.length, pending := old(Model()).pending + m.data)
    {
      myWindow := myWindow - m.length;
      pending.Write(m.data);
    }

    method HandleData(m: Message) returns (err: Option<Error>)
      requires Valid() && m.Data?
      modifies this`myWindow, pending.Repr()
      ensures Valid() && fresh(Repr() - old(Repr()))
      ensures Handles(HandleWhole(old(Model()), m), err, old(enc.out), old(enc.accepts), old(chanList.chans))
      ensures err == if m.length > maxIncomingPayload then Some(PayloadTooBig)
                     else if m.length != |m.data| % 0x1_0000_0000 then Some(WrongPacketLength)
                     else if m.length > old(myWindow) then Some(WroteTooMuch)
                     else None
      ensures myWindow == old(myWindow) - if err.None? then m.length else 0
      ensures pending.Model().contents == old(pending.Model().contents) + if err.None? then m.data else []
      ensures pending.closed == old(pending.closed)
    {
      assert enc.out + [] == enc.out && pending.Model().contents + [] == pending.Model().contents;
      err := None;
      if m.length > maxIncomingPayload {
        err := Some(PayloadTooBig);
      } else if m.length != |m.data| % TWO32 {
        err := Some(WrongPacketLength);
      } else if myWindow < m.length {
        err := Some(WroteTooMuch);
      } else {
        TakeIn(m);
      }
    }

    /** The reply, the freeing of the slot, and the shutting: `Send`, `Remove` and `Shut`. The locks are
        released in between; here nothing else happens then. */
    method HandleClose(m: Message) returns (err: Option<Error>)
      requires Valid() && m.Close?
      modifies this`sentClose, this`msgClosed, pending`closed, remoteWin, enc, chanList
      ensures Valid()
      ensures Handles(HandleWhole(old(Model()), m), err, old(enc.out), old(enc.accepts), old(chanList.chans))
      ensures err == None
      ensures pending.closed && msgClosed && sentClose && remoteWin.closed && remoteWin.win == old(remoteWin.win)
      ensures var replies := !old(sentClose) && old(enc.accepts) > 0;
              && enc.out == old(enc.out) + (if replies then [Message.Close(remoteId)] else [])
              && enc.accepts == old(enc.accepts) - if replies then 1 else 0
      ensures Freed(localId, old(chanList.chans))
    {
      var _ := Send(Message.Close(remoteId));
      chanList.Remove(localId);
      Shut();
      return None;
    }

    method HandleEof(m: Message) returns (err: Option<Error>)
      requires Valid() && m.Eof?
      modifies pending`closed
      ensures Valid()
      ensures Handles(HandleWhole(old(Model()), m), err, old(enc.out), old(enc.accepts), old(chanList.chans))
      ensures err == None && pending.closed
    {
      pending.Eof();
      assert enc.out + [] == enc.out;
      return None;
    }

    /** What an accepted confirmation tells. */
    method Learn(m: Message)
      requires Valid() && m.OpenConfirm?
      modifies this`remoteId, this`maxRemotePayload, this`msg, remoteWin
      ensures Valid()
      ensures var c := old(Model());
              var win := match Credit.Add(c.remoteWin, m.windowSize) case None => c.remoteWin case Some(w) => w;
              Model() == c.(remoteId := m.senderId, maxRemotePayload := m.maxPacketSize, remoteWin := win,
                            msg := c.msg + [m])
    {
      remoteId := m.senderId;
      maxRemotePayload := m.maxPacketSize;
      Credit.AddExact(remoteWin.win, m.windowSize);
      var _ := remoteWin.Add(m.windowSize);
      msg := msg + [m];
    }

    method HandleConfirm(m: Message) returns (err: Option<Error>)
      requires Valid() && m.OpenConfirm?
      modifies this`remoteId, this`maxRemotePayload, this`msg, remoteWin
      ensures Valid()
      ensures Handles(HandleWhole(old(Model()), m), err, old(enc.out), old(enc.accepts), old(chanList.chans))
      ensures err == if direction == Inbound then Some(ResponseOnInbound)
                     else if !(9 <= m.maxPacketSize <= 0x8000_0000) then Some(InvalidMaxPacketSize(m.maxPacketSize))
                     else None
      ensures err == None ==> remoteId == m.senderId && maxRemotePayload == m.maxPacketSize && msg == old(msg) + [m]
      ensures err == None ==>
                var sum := old(remoteWin.win) + m.windowSize;
                remoteWin.win == if sum < 0x1_0000_0000 then sum else old(remoteWin.win)
      ensures remoteWin.closed == old(remoteWin.closed) && (err.Some? ==> Model() == old(Model()))
    {
      assert enc.out + [] == enc.out;
      err := None;
      if direction.Inbound? {
        err := Some(ResponseOnInbound);
      } else if m.maxPacketSize < MIN_PACKET_LENGTH || m.maxPacketSize > MAX_PACKET_LENGTH {
        err := Some(InvalidMaxPacketSize(m.maxPacketSize));
      } else {
        Learn(m);
      }
    }

    method HandleFailure(m: Message) returns (err: Option<Error>)
      requires Valid() && m.OpenFailure?
      modifies this`msg, chanList
      ensures Valid()
      ensures Handles(HandleWhole(old(Model()), m), err, old(enc.out), old(enc.accepts), old(chanList.chans))
      ensures err == if direction == Inbound then Some(ResponseOnInbound) else None
      ensures direction == Inbound ==> msg == old(msg) && chanList.chans == old(chanList.chans)
      ensures direction == Outbound ==> msg == old(msg) + [m] && Freed(m.channelId, old(chanList.chans))
    {
      assert enc.out + [] == enc.out;
      if direction.Inbound? {
        return Some(ResponseOnInbound);
      }
      chanList.Remove(m.channelId);
      msg := msg + [m];
      return None;
    }

    method HandleAdjust(m: Message) returns (err: Option<Error>)
      requires Valid() && m.WindowAdjust?
      modifies remoteWin
      ensures Valid()
      ensures Handles(HandleWhole(old(Model()), m), err, old(enc.out), old(enc.accepts), old(chanList.chans))
      ensures var sum := old(remoteWin.win) + m.additionalBytes;
              && err == (if sum < 0x1_0000_0000 then None else Some(InvalidWindowUpdate(m.additionalBytes)))
              && remoteWin.win == (if sum < 0x1_0000_0000 then sum else old(remoteWin.win))
              && remoteWin.closed == old(remoteWin.closed)
    {
      assert enc.out + [] == enc.out;
      Credit.AddExact(remoteWin.win, m.additionalBytes);
      var ok := remoteWin.Add(m.additionalBytes);
      err := if ok then None else Some(InvalidWindowUpdate(m.additionalBytes));
    }

    method Handle(m: Message) returns (err: Option<Error>)
      requires Valid()
      modifies Repr(), enc, chanList
      ensures Valid() && fresh(Repr() - old(Repr()))
      ensures Handles(HandleWhole(old(Model()), m), err, old(enc.out), old(enc.accepts), old(chanList.chans))
      ensures m.Open? ==>
                && err == Some(InvalidMessage) && Model() == old(Model())
                && enc.out == old(enc.out) && chanList.chans == old(chanList.chans)
    {
      match m
      case Data(_, _, _) => err := HandleData(m);
      case Close(_) => err := HandleClose(m);
      case Eof(_) => err := HandleEof(m);
      case WindowAdjust(_, _) => err := HandleAdjust(m);
      case OpenConfirm(_, _, _, _) => err := HandleConfirm(m);
      case OpenFailure(_) => err := HandleFailure(m);
      case Open(_, _, _) =>
        assert enc.out + [] == enc.out;
        err := Some(InvalidMessage);
    }
  }
}
