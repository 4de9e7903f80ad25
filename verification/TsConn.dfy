/** Reassembly of socket messages into reads of exact length: `Conn` in javascript/mux/transport/websocket.ts. */
module TsConn {
  import opened Wrappers
  import opened Wire

  /** How a promised read ends: not yet, with bytes, or with undefined once the connection is closed. */
  datatype Answer = Later | Got(bytes: seq<byte>) | Undefined

  /** A connection as a value; a waiter is the length of a read that waits. */
  datatype Conn = Conn(buf: seq<byte>, waiters: seq<nat>, isClosed: bool)

  datatype Reply = Reply(c: Conn, answer: Answer)

  /** `tryRead`: a read of length 0 means everything buffered, when there is anything. */
  function TryRead(c: Conn, len: nat): Reply {
    if c.isClosed then Reply(c, Undefined)
    else if len == 0 && |c.buf| > 0 then Reply(c.(buf := []), Got(c.buf))
    else if |c.buf| >= len then Reply(c.(buf := c.buf[len..]), Got(c.buf[..len]))
    else Reply(c.(waiters := c.waiters + [len]), Later)
  }

  /** `onmessage`: buffer the data and wake the first waiter, which may go back to waiting. The answer
      is that waiter's. */
  function OnMessage(c: Conn, data: seq<byte>): Reply {
    var c' := c.(buf := c.buf + data);
    if c.waiters == [] then Reply(c', Later)
    else TryRead(c'.(waiters := c.waiters[1..]), c.waiters[0])
  }

  class Connection {
    var buf: seq<byte>
    var waiters: seq<nat>
    var isClosed: bool

    ghost function Model(): Conn
      reads this
    {
      Conn(buf, waiters, isClosed)
    }

    constructor ()
      ensures buf == [] && waiters == [] && !isClosed
    {
      buf, waiters, isClosed := [], [], false;
    }

    method Read(len: nat) returns (answer: Answer)
      modifies this
      ensures Reply(Model(), answer) == TryRead(old(Model()), len)
      ensures isClosed == old(isClosed)
      ensures isClosed ==> answer == Undefined && buf == old(buf) && waiters == old(waiters)
      ensures !isClosed && len == 0 && |old(buf)| > 0 ==>
                answer == Got(old(buf)) && buf == [] && waiters == old(waiters)
      ensures !isClosed && (len > 0 || old(buf) == []) && |old(buf)| >= len ==>
                answer == Got(old(buf)[..len]) && buf == old(buf)[len..] && waiters == old(waiters)
      ensures !isClosed && |old(buf)| < len ==>
                answer == Later && buf == old(buf) && waiters == old(waiters) + [len]
    {
      if isClosed {
        return Undefined;
      }
      if len == 0 && |buf| > 0 {
        answer := Got(buf);
        buf := [];
        return;
      }
      if |buf| >= len {
        answer := Got(buf[..len]);
        buf := buf[len..];
        return;
      }
      waiters := waiters + [len];
      return Later;
    }

    method Receive(data: seq<byte>) returns (answer: Answer)
      modifies this
      ensures Reply(Model(), answer) == OnMessage(old(Model()), data)
      ensures isClosed == old(isClosed)
      ensures old(waiters) == [] ==> answer == Later && buf == old(buf) + data && waiters == []
      ensures old(waiters) != [] ==>
                var all, len, others := old(buf) + data, old(waiters)[0], old(waiters)[1..];
                if isClosed then answer == Undefined && buf == all && waiters == others
                else if len == 0 && |all| > 0 then answer == Got(all) && buf == [] && waiters == others
                else if |all| >= len then answer == Got(all[..len]) && buf == all[len..] && waiters == others
                else answer == Later && buf == all && waiters == others + [len]
    {
      JoinedTwo(buf, data);
      var all := Concat([buf, data], |buf| + |data|);
      buf := all.value;
      assert buf == old(buf) + data;
      answer := Later;
      if |waiters| > 0 {
        var len := waiters[0];
        waiters := waiters[1..];
        answer := Read(len);
      }
    }

    /** Closing, the first time, tries every waiter again, and so answers it with undefined. */
    method Close() returns (answers: seq<Answer>)
      modifies this
      ensures isClosed && buf == old(buf) && waiters == old(waiters)
      ensures |answers| == (if old(isClosed) then 0 else |old(waiters)|)
      ensures forall i | 0 <= i < |answers| :: answers[i] == Undefined
    {
      answers := [];
      if isClosed {
        return;
      }
      isClosed := true;
      for i := 0 to |waiters|
        invariant Model() == old(Model()).(isClosed := true)
        invariant |answers| == i && forall k | 0 <= k < i :: answers[k] == Undefined
      {
        var answer := Read(waiters[i]);
        answers := answers + [answer];
      }
    }
  }

  function Joined(list: seq<seq<byte>>): seq<byte> {
    if list == [] then [] else list[0] + Joined(list[1..])
  }

  lemma JoinedTwo(a: seq<byte>, b: seq<byte>)
    ensures Joined([a, b]) == a + b
  {
    assert [a, b][1..] == [b];
    assert Joined([b]) == b + Joined([]);
  }

  lemma {:induction false} JoinedAppend(list: seq<seq<byte>>, x: seq<byte>)
    ensures Joined(list + [x]) == Joined(list) + x
  {
    if list == [] {
      assert list + [x] == [x];
      assert Joined([x]) == x + Joined([]);
    } else {
      assert (list + [x])[1..] == list[1..] + [x];
      JoinedAppend(list[1..], x);
      assert list[0] + (Joined(list[1..]) + x) == (list[0] + Joined(list[1..])) + x;
    }
  }

  lemma {:induction false} JoinedPrefix(list: seq<seq<byte>>, i: nat)
    requires i < |list|
    ensures |Joined(list[..i])| + |list[i]| <= |Joined(list)|
    ensures Joined(list[..i + 1]) == Joined(list[..i]) + list[i]
    ensures Joined(list[..i + 1]) <= Joined(list)
  {
    assert list[..i + 1] == list[..i] + [list[i]];
    JoinedAppend(list[..i], list[i]);
    JoinedSplit(list, i + 1);
  }

  lemma {:induction false} JoinedSplit(list: seq<seq<byte>>, i: nat)
    requires i <= |list|
    ensures Joined(list) == Joined(list[..i]) + Joined(list[i..])
  {
    if i == 0 {
      assert list[..0] == [] && list[0..] == list;
    } else {
      JoinedSplit(list[1..], i - 1);
      assert list[..i][1..] == list[1..][..i - 1] && list[1..][i - 1..] == list[i..];
    }
  }

  /** `util.concat`: the parts one after the other in a buffer of the announced length, padded with
      zeros. Nothing when the parts do not fit, where the original throws a RangeError. */
  function ConcatOf(list: seq<seq<byte>>, totalLength: nat): Option<seq<byte>> {
    var all := Joined(list);
    if |all| > totalLength then None else Some(all + seq(totalLength - |all|, _ => 0))
  }

  method Concat(list: seq<seq<byte>>, totalLength: nat) returns (r: Option<seq<byte>>)
    ensures r == ConcatOf(list, totalLength)
    ensures r.None? <==> |Joined(list)| > totalLength
    ensures r.Some? ==>
              && |r.value| == totalLength && r.value[..|Joined(list)|] == Joined(list)
              && forall k | |Joined(list)| <= k < totalLength :: r.value[k] == 0
  {
    var a := new byte[totalLength](_ => 0);
    var offset := 0;
    for i := 0 to |list|
      invariant offset == |Joined(list[..i])| <= totalLength
      invariant a[..offset] == Joined(list[..i])
      invariant forall k | offset <= k < totalLength :: a[k] == 0
    {
      JoinedPrefix(list, i);
      var el := list[i];
      if offset + |el| > totalLength {
        return None;
      }
      ghost var done := a[..offset];
      forall k | offset <= k < offset + |el| {
        a[k] := el[k - offset];
      }
      assert a[..offset + |el|] == done + el;
      offset := offset + |el|;
    }
    assert list[..|list|] == list;
    assert a[..] == Joined(list) + seq(totalLength - offset, _ => 0);
    return Some(a[..]);
  }
}
