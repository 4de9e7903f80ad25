/** The receiving half of the TypeScript channel: `read` and `handleData` in javascript/mux/channel.ts. */
module TsChannel {
  import opened Wrappers
  import opened Wire
  import TsConn

  /** A channel as a value; `readBuf` is undefined once the channel has ended. */
  datatype Chan = Chan(
    readBuf: Option<seq<byte>>,
    readers: seq<nat>,
    gotEOF: bool,
    myWindow: u32,
    maxIncomingPayload: u32)

  datatype Reply = Reply(c: Chan, answer: TsConn.Answer)

  datatype Fault = PayloadTooBig | WroteTooMuch

  /** `tryRead`: a read that drains the buffer after the peer's Eof ends the channel, unless it asked
      for everything buffered. */
  function TryRead(c: Chan, len: nat): Reply {
    match c.readBuf
    case None => Reply(c, TsConn.Undefined)
    case Some(buf) =>
      if len == 0 && |buf| > 0 then Reply(c.(readBuf := Some([])), TsConn.Got(buf))
      else if |buf| >= len then
        var rest := buf[len..];
        Reply(c.(readBuf := if rest == [] && c.gotEOF then None else Some(rest)), TsConn.Got(buf[..len]))
      else Reply(c.(readers := c.readers + [len]), TsConn.Later)
  }

  /** `handleData`; the answer is that of the first reader, when one waits. Nothing replenishes
      `myWindow`. */
  function HandleData(c: Chan, length: u32, data: seq<byte>): Result<Reply, Fault> {
    if length > c.maxIncomingPayload then Err(PayloadTooBig)
    else if c.myWindow < length then Err(WroteTooMuch)
    else
      var c' := c.(myWindow := c.myWindow - length,
                   readBuf := match c.readBuf case None => None case Some(buf) => Some(buf + data));
      if c.readers == [] then Ok(Reply(c', TsConn.Later))
      else Ok(TryRead(c'.(readers := c.readers[1..]), c.readers[0]))
  }

  class Channel {
    var readBuf: Option<seq<byte>>
    var readers: seq<nat>
    var gotEOF: bool
    var myWindow: u32
    var maxIncomingPayload: u32

    ghost function Model(): Chan
      reads this
    {
      Chan(readBuf, readers, gotEOF, myWindow, maxIncomingPayload)
    }

    constructor (window: u32, packet: u32)
      ensures readBuf == Some([]) && readers == [] && !gotEOF && myWindow == window && maxIncomingPayload == packet
    {
      readBuf, readers, gotEOF, myWindow, maxIncomingPayload := Some([]), [], false, window, packet;
    }

    method Read(len: nat) returns (answer: TsConn.Answer)
      modifies this
      ensures Reply(Model(), answer) == TryRead(old(Model()), len)
      ensures gotEOF == old(gotEOF) && myWindow == old(myWindow) && maxIncomingPayload == old(maxIncomingPayload)
      ensures old(readBuf) == None ==> answer == TsConn.Undefined && readBuf == None && readers == old(readers)
      ensures old(readBuf).Some? ==>
                var buf := old(readBuf).value;
                if len == 0 && |buf| > 0 then
                  answer == TsConn.Got(buf) && readBuf == Some([]) && readers == old(readers)
                else if |buf| >= len then
                  && answer == TsConn.Got(buf[..len]) && readers == old(readers)
                  && readBuf == if |buf| == len && gotEOF then None else Some(buf[len..])
                else answer == TsConn.Later && readBuf == Some(buf) && readers == old(readers) + [len]
    {
      if readBuf.None? {
        return TsConn.Undefined;
      }
      var buf := readBuf.value;
      if len == 0 && |buf| > 0 {
        readBuf := Some([]);
        return TsConn.Got(buf);
      }
      if |buf| >= len {
        readBuf := Some(buf[len..]);
        if |readBuf.value| == 0 && gotEOF {
          readBuf := None;
        }
        return TsConn.Got(buf[..len]);
      }
      readers := readers + [len];
      return TsConn.Later;
    }

    method Receive(length: u32, data: seq<byte>) returns (r: Result<TsConn.Answer, Fault>)
      modifies this
      ensures match HandleData(old(Model()), length, data)
              case Err(e) => r == Err(e) && Model() == old(Model())
              case Ok(reply) => r == Ok(reply.answer) && Model() == reply.c
      ensures r == Err(PayloadTooBig) <==> length > old(maxIncomingPayload)
      ensures r == Err(WroteTooMuch) <==> length <= old(maxIncomingPayload) && length > old(myWindow)
      ensures gotEOF == old(gotEOF) && maxIncomingPayload == old(maxIncomingPayload)
      ensures myWindow == old(myWindow) - if r.Ok? then length else 0
      ensures r.Err? ==> readBuf == old(readBuf) && readers == old(readers)
      ensures r.Ok? && old(readers) == [] ==>
                && r == Ok(TsConn.Later) && readers == []
                && readBuf == if old(readBuf).Some? then Some(old(readBuf).value + data) else None
      ensures r.Ok? && old(readers) != [] && old(readBuf).Some? ==>
                var all, len, others := old(readBuf).value + data, old(readers)[0], old(readers)[1..];
                if len == 0 && |all| > 0 then
                  r == Ok(TsConn.Got(all)) && readBuf == Some([]) && readers == others
                else if |all| >= len then
                  && r == Ok(TsConn.Got(all[..len])) && readers == others
                  && readBuf == if |all| == len && gotEOF then None else Some(all[len..])
                else r == Ok(TsConn.Later) && readBuf == Some(all) && readers == others + [len]
      ensures r.Ok? && old(readers) != [] && old(readBuf) == None ==>
                r == Ok(TsConn.Undefined) && readBuf == None && readers == old(readers)[1..]
    {
      if length > maxIncomingPayload {
        return Err(PayloadTooBig);
      }
      if myWindow < length {
        return Err(WroteTooMuch);
      }
      myWindow := myWindow - length;
      if readBuf.Some? {
        readBuf := Some(readBuf.value + data);
      }
      var answer := TsConn.Later;
      if |readers| > 0 {
        var len := readers[0];
        readers := readers[1..];
        answer := Read(len);
      }
      return Ok(answer);
    }
  }

  /** A channel after some messages, up to the first that it refuses. */
  function After(c: Chan, ms: seq<(u32, seq<byte>)>): Chan
    decreases |ms|
  {
    if ms == [] then c
    else
      match HandleData(c, ms[0].0, ms[0].1)
      case Err(_) => c
      case Ok(r) => After(r.c, ms[1..])
  }

  /** What it accepts of them. */
  function Accepted(c: Chan, ms: seq<(u32, seq<byte>)>): nat
    decreases |ms|
  {
    if ms == [] then 0
    else
      match HandleData(c, ms[0].0, ms[0].1)
      case Err(_) => 0
      case Ok(r) => ms[0].0 + Accepted(r.c, ms[1..])
  }

  /** `adjustWindow` being a stub, a channel accepts no more than its initial window in its whole life: what it
      accepts and what is left of the window add up. */
  lemma {:induction false} WindowIsNeverReplenished(c: Chan, ms: seq<(u32, seq<byte>)>)
    ensures Accepted(c, ms) + After(c, ms).myWindow == c.myWindow
    decreases |ms|
  {
    if ms != [] {
      match HandleData(c, ms[0].0, ms[0].1)
      case Err(_) =>
      case Ok(r) => WindowIsNeverReplenished(r.c, ms[1..]);
    }
  }
}
