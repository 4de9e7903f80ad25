/** The linked-list byte queue between the session's loop and a channel's reader, from golang/mux/util.go. */
module Buffer {
  import opened Wrappers
  import opened Wire

  // ---------------------------------------------------------------- the byte sequence it stands for

  datatype Bytes = Bytes(contents: seq<byte>, closed: bool)

  /** What the producer does. */
  datatype Event = Arrive(data: seq<byte>) | Eof

  function Act(b: Bytes, e: Event): Bytes {
    match e
    case Arrive(data) => b.(contents := b.contents + data)
    case Eof => b.(closed := true)
  }

  function After(b: Bytes, es: seq<Event>): Bytes
    decreases |es|
  {
    if es == [] then b else After(Act(b, es[0]), es[1..])
  }

  /**
   How a reader waits. While there is neither data nor an end it waits, and each time it is woken the producer
   has done some things. When the lists of events run out it is still waiting.
   */
  datatype Wait = Wait(b: Bytes, rest: seq<seq<Event>>, waiting: bool)

  function Await(b: Bytes, env: seq<seq<Event>>): (r: Wait)
    ensures r.waiting <==> r.b.contents == [] && !r.b.closed
    ensures r.waiting ==> r.rest == []
    decreases |env|
  {
    if b.contents != [] || b.closed then Wait(b, env, false)
    else if env == [] then Wait(b, [], true)
    else Await(After(b, env[0]), env[1..])
  }

  /** The events of some lists, one list after the other. */
  function Joined(env: seq<seq<Event>>): seq<Event>
    decreases |env|
  {
    if env == [] then [] else env[0] + Joined(env[1..])
  }

  /** The events of the first list, and then those of the next ones. */
  lemma JoinedFirst(b: Bytes, env: seq<seq<Event>>, j: nat)
    requires 0 < j <= |env|
    ensures After(b, Joined(env[..j])) == After(After(b, env[0]), Joined(env[1..][..j - 1]))
  {
    assert env[..j][1..] == env[1..][..j - 1];
    AfterAppend(b, env[0], Joined(env[1..][..j - 1]));
  }

  /** A reader waits no longer than it has to: k lists of events pass, at each look before there was neither
      data nor an end, and it goes on waiting only when there are no more. */
  lemma {:induction false} AwaitStops(b: Bytes, env: seq<seq<Event>>) returns (k: nat)
    ensures var r := Await(b, env);
            && k <= |env| && r.rest == env[k..] && r.b == After(b, Joined(env[..k]))
            && (r.waiting ==> k == |env|)
    ensures forall j: nat | j < k :: After(b, Joined(env[..j])).contents == [] && !After(b, Joined(env[..j])).closed
    ensures k < |env| ==> var v := After(b, Joined(env[..k])); v.contents != [] || v.closed
    decreases |env|
  {
    assert After(b, Joined(env[..0])) == b && env[0..] == env;
    hide After, Joined;
    k := 0;
    if b.contents == [] && !b.closed && env != [] {
      var k' := AwaitStops(After(b, env[0]), env[1..]);
      k := k' + 1;
      forall j: nat | 0 < j <= k
        ensures After(b, Joined(env[..j])) == After(After(b, env[0]), Joined(env[1..][..j - 1]))
      {
        JoinedFirst(b, env, j);
      }
    }
  }

  lemma {:induction false} AfterAppend(b: Bytes, x: seq<Event>, y: seq<Event>)
    ensures After(b, x + y) == After(After(b, x), y)
    decreases |x|
  {
    if x == [] {
      assert x + y == y;
    } else {
      assert (x + y)[0] == x[0] && (x + y)[1..] == x[1..] + y;
      AfterAppend(Act(b, x[0]), x[1..], y);
    }
  }

  // ---------------------------------------------------------------- the list

  class Element {
    var buf: seq<byte>
    var next: Element?

    constructor (buf: seq<byte>)
      ensures this.buf == buf && next == null
    {
      this.buf, next := buf, null;
    }
  }

  /** The bytes of a run of elements. */
  ghost function Flat(es: seq<Element>): seq<byte>
    reads es
  {
    if es == [] then [] else es[0].buf + Flat(es[1..])
  }

  lemma {:induction false} FlatAppend(es: seq<Element>, e: Element)
    ensures Flat(es + [e]) == Flat(es) + e.buf
  {
    if es == [] {
      assert es + [e] == [e];
      assert Flat([e]) == e.buf + Flat([]);
    } else {
      assert (es + [e])[0] == es[0] && (es + [e])[1..] == es[1..] + [e];
      FlatAppend(es[1..], e);
      assert es[0].buf + (Flat(es[1..]) + e.buf) == (es[0].buf + Flat(es[1..])) + e.buf;
    }
  }

  /** `spine` lists the elements from `head` to `tail`: the list is acyclic and ends at `tail`. */
  class Buffer {
    var head: Element
    var tail: Element
    var closed: bool
    ghost var spine: seq<Element>

    ghost predicate Valid()
      reads this, spine
    {
      && spine != []
      && head == spine[0]
      && tail == spine[|spine| - 1]
      && tail.next == null
      && (forall i | 0 <= i < |spine| - 1 :: spine[i].next == spine[i + 1])
      && (forall i, j | 0 <= i < j < |spine| :: spine[i] != spine[j])
    }

    ghost function Repr(): set<object>
      reads this
    {
      var elements: set<Element> := set e | e in spine;
      var objects: set<object> := elements;
      objects + {this}
    }

    ghost function Model(): Bytes
      reads this, spine
    {
      Bytes(Flat(spine), closed)
    }

    constructor ()
      ensures Valid() && fresh(Repr()) && Model() == Bytes([], false)
    {
      var e := new Element([]);
      head, tail, closed, spine := e, e, false, [e];
      new;
      assert Flat(spine) == e.buf + Flat([]);
    }

    method Write(buf: seq<byte>)
      requires Valid()
      modifies Repr()
      ensures Valid() && fresh(Repr() - old(Repr()))
      ensures Model() == Act(old(Model()), Arrive(buf))
      ensures Flat(spine) == old(Flat(spine)) + buf && closed == old(closed)
    {
      var e := new Element(buf);
      FlatAppend(spine, e);
      label before:
      tail.next := e;
      tail := e;
      spine := spine + [e];
      FlatAppend(old(spine), e);
      SameBytes@before(old(spine));
    }

    /** Relinking does not change the bytes. */
    twostate lemma SameBytes(es: seq<Element>)
      requires forall e | e in es :: old(e.buf) == e.buf
      ensures old(Flat(es)) == Flat(es)
    {
      if es != [] {
        SameBytes(es[1..]);
      }
    }

    method Eof()
      requires Valid()
      modifies this`closed
      ensures Valid() && Model() == Act(old(Model()), Event.Eof)
      ensures closed && Flat(spine) == old(Flat(spine))
    {
      closed := true;
    }

    method Other(e: Event)
      requires Valid()
      modifies Repr()
      ensures Valid() && fresh(Repr() - old(Repr()))
      ensures Model() == Act(old(Model()), e)
    {
      match e
      case Arrive(data) => Write(data);
      case Eof => Eof();
    }

    /** Copy what fits from the first element: one turn of the loop of `Read`. */
    method CopyHead(dst: array<byte>, n: nat) returns (r: nat, ghost taken: seq<byte>)
      requires Valid() && head.buf != [] && n < dst.Length
      modifies head, dst
      ensures Valid()
      ensures |taken| == r && 0 < r <= dst.Length - n && taken + Flat(spine) == old(Flat(spine))
      ensures forall i | n <= i < n + r :: dst[i] == taken[i - n]
      ensures forall i | 0 <= i < dst.Length && !(n <= i < n + r) :: dst[i] == old(dst[i])
    {
      r := if dst.Length - n < |head.buf| then dst.Length - n else |head.buf|;
      var bytes := head.buf[..r];
      taken := bytes;
      assert head.buf == taken + head.buf[r..];
      ghost var others := Flat(spine[1..]);
      forall i | n <= i < n + r {
        dst[i] := bytes[i - n];
      }
      head.buf := head.buf[r..];
      assert Flat(spine[1..]) == others;
      assert taken + (head.buf + others) == (taken + head.buf) + others;
    }

    /** Step over an empty first element. */
    method Advance()
      requires Valid() && head.buf == [] && head != tail
      modifies this`head, this`spine
      ensures Valid() && spine == old(spine)[1..] && Flat(spine) == old(Flat(spine))
    {
      assert |spine| > 1 && Flat(spine) == head.buf + Flat(spine[1..]);
      head := head.next;
      spine := spine[1..];
    }

    /** With a single empty element there is nothing to read. */
    lemma Drained()
      requires Valid() && head.buf == [] && head == tail
      ensures Flat(spine) == []
    {
      assert spine == [head];
      assert Flat(spine) == head.buf + Flat([]);
    }

    /**
     The turns of the loop of `Read` that do not wait: copy from the first element, or step over it
     when it is empty, until `dst` is full or the list is drained. Each turn shrinks the free part of
     `dst` or, leaving that alone, the list.
     */
    method Fill(dst: array<byte>) returns (n: nat)
      requires Valid()
      modifies this`head, this`spine, spine, dst
      ensures Valid() && closed == old(closed)
      ensures forall e | e in spine :: e in old(spine)
      ensures n == if dst.Length < |old(Flat(spine))| then dst.Length else |old(Flat(spine))|
      ensures Flat(spine) == old(Flat(spine))[n..]
      ensures dst[..n] == old(Flat(spine))[..n] && dst[n..] == old(dst[..])[n..]
    {
      ghost var got, all;
      n, got, all := CopyAll(dst);
      assert all[..n] == got && all[n..] == Flat(spine);
    }

    method CopyAll(dst: array<byte>) returns (n: nat, ghost got: seq<byte>, ghost all: seq<byte>)
      requires Valid()
      modifies this`head, this`spine, spine, dst
      ensures Valid() && closed == old(closed)
      ensures forall e | e in spine :: e in old(spine)
      ensures all == old(Flat(spine)) && |got| == n <= dst.Length && got + Flat(spine) == all
      ensures n == dst.Length || Flat(spine) == []
      ensures forall i | 0 <= i < n :: dst[i] == got[i]
      ensures forall i | n <= i < dst.Length :: dst[i] == old(dst[i])
    {
      n := 0;
      got, all := [], Flat(spine);
      while n < dst.Length
        invariant Valid() && forall e | e in spine :: e in old(spine)
        invariant |got| == n <= dst.Length && got + Flat(spine) == all
        invariant forall i | 0 <= i < n :: dst[i] == got[i]
        invariant forall i | n <= i < dst.Length :: dst[i] == old(dst[i])
        decreases dst.Length - n, |spine|
      {
        assert head in spine;
        if |head.buf| > 0 {
          var r, taken := CopyHead(dst, n);
          Regroup(got, taken, Flat(spine));
          got := got + taken;
          n := n + r;
        } else if head != tail {
          Advance();
        } else {
          Drained();
          break;
        }
      }
    }

    /** What the producer does while a reader waits. */
    method Others(es: seq<Event>)
      requires Valid()
      modifies Repr()
      ensures Valid() && fresh(Repr() - old(Repr()))
      ensures Model() == After(old(Model()), es)
    {
      for i := 0 to |es|
        invariant Valid() && fresh(Repr() - old(Repr()))
        invariant Model() == After(old(Model()), es[..i])
      {
        assert es[..i + 1] == es[..i] + [es[i]] && [es[i]][1..] == [];
        AfterAppend(old(Model()), es[..i], [es[i]]);
        Other(es[i]);
      }
      assert es[..|es|] == es;
    }

    /** What `Read` of `len` bytes finds in a buffer: the bytes it returns, and whether it is the end. */
    static function Taken(b: Bytes, len: nat): seq<byte> {
      if len < |b.contents| then b.contents[..len] else b.contents
    }

    static predicate AtEnd(b: Bytes) {
      b.contents == [] && b.closed
    }

    static function Left(b: Bytes, len: nat): Bytes {
      b.(contents := b.contents[|Taken(b, len)|..])
    }

    /** A read of nothing. */
    static lemma NothingTaken(b: Bytes)
      ensures Taken(b, 0) == [] && Left(b, 0) == b
    {
    }

    /** What a look at buffer b does: `dst`, which was `was`, holds what there was in front. */
    ghost predicate Looked(b: Bytes, dst: array<byte>, was: seq<byte>, n: nat, eof: bool)
      reads this, spine, dst
    {
      && n == |Taken(b, dst.Length)| <= dst.Length == |was| && eof == (n == 0 && b.closed)
      && Model() == Left(b, dst.Length) && dst[..] == Taken(b, dst.Length) + was[n..]
    }

    /** A look at the buffer: fill `dst`, or find the end, or find that there is nothing yet. */
    method Look(dst: array<byte>) returns (n: nat, eof: bool)
      requires Valid()
      modifies this`head, this`spine, spine, dst
      ensures Valid() && (forall e | e in spine :: e in old(spine))
      ensures Looked(old(Model()), dst, old(dst[..]), n, eof)
    {
      n := Fill(dst);
      eof := n == 0 && closed;
      assert dst[..] == dst[..n] + dst[n..];
    }

    /** Wait once, and look again. */
    method Woken(dst: array<byte>, es: seq<Event>) returns (n: nat, eof: bool)
      requires Valid()
      modifies Repr(), dst
      ensures Valid() && fresh(Repr() - old(Repr()))
      ensures Looked(After(old(Model()), es), dst, old(dst[..]), n, eof)
    {
      Others(es);
      n, eof := Look(dst);
    }

    /** A look that finds nothing changes nothing. */
    lemma NothingYet(b: Bytes, dst: array<byte>, was: seq<byte>, n: nat, eof: bool)
      requires Looked(b, dst, was, n, eof) && n == 0 && dst.Length > 0
      ensures Model() == b && b.contents == [] && dst[..] == was && eof == b.closed
    {
    }

    /** The rounds of the loop of `Read`: look, and as long as there is nothing, wait and look again. */
    method Rounds(dst: array<byte>, env: seq<seq<Event>>)
      returns (n: nat, eof: bool, rest: seq<seq<Event>>, ghost b: Bytes)
      requires Valid() && dst.Length > 0
      modifies Repr(), dst
      ensures Valid() && fresh(Repr() - old(Repr()))
      ensures Await(old(Model()), env) == Wait(b, rest, n == 0 && !eof)
      ensures Looked(b, dst, old(dst[..]), n, eof)
    {
      hide Looked;
      rest, b := env, Model();
      ghost var was, w := dst[..], Await(Model(), env);
      n, eof := Look(dst);
      while n == 0 && !eof && rest != []
        invariant Valid() && fresh(Repr() - old(Repr()))
        invariant Await(b, rest) == w && Looked(b, dst, was, n, eof)
        decreases |rest|
      {
        NothingYet(b, dst, was, n, eof);
        b := After(b, rest[0]);
        n, eof := Woken(dst, rest[0]);
        rest := rest[1..];
      }
      Settled(b, dst, was, n, eof, rest);
    }

    /** Where the rounds end. */
    lemma Settled(b: Bytes, dst: array<byte>, was: seq<byte>, n: nat, eof: bool, rest: seq<seq<Event>>)
      requires Looked(b, dst, was, n, eof) && dst.Length > 0 && (n > 0 || eof || rest == [])
      ensures Await(b, rest) == Wait(b, rest, n == 0 && !eof)
    {
    }

    /**
     Waits until there is data or the buffer is closed, then fills `dst` from the front of the queue.
     `env` is what the producer does each time this call waits; when it runs out the caller is still
     waiting.
     */
    method Read(dst: array<byte>, env: seq<seq<Event>>)
      returns (n: nat, eof: bool, rest: seq<seq<Event>>, waiting: bool)
      requires Valid()
      modifies Repr(), dst
      ensures Valid() && fresh(Repr() - old(Repr()))
      ensures dst.Length == 0 ==> n == 0 && !eof && !waiting && rest == env && Model() == old(Model())
      ensures dst.Length > 0 ==>
                var w := Await(old(Model()), env);
                && rest == w.rest && waiting == w.waiting && eof == AtEnd(w.b)
                && n == |Taken(w.b, dst.Length)| && Model() == Left(w.b, dst.Length)
                && dst[..n] == Taken(w.b, dst.Length)
      ensures dst.Length > 0 ==>
                var b := Await(old(Model()), env).b;
                && n == (if dst.Length < |b.contents| then dst.Length else |b.contents|)
                && dst[..n] == b.contents[..n] && Model() == Bytes(b.contents[n..], b.closed)
                && eof == (b.contents == [] && b.closed) && waiting == (b.contents == [] && !b.closed)
                && (waiting ==> rest == [])
                && (old(Model().contents) != [] || old(closed) ==> b == old(Model()) && rest == env)
      ensures n <= dst.Length && dst[n..] == old(dst[..])[n..]
    {
      n, eof, rest, waiting := 0, false, env, false;
      if dst.Length == 0 {
        return;
      }
      ghost var b;
      n, eof, rest, b := Rounds(dst, env);
      waiting := n == 0 && !eof;
      assert dst[..n] == dst[..][..n] && dst[n..] == dst[..][n..];
    }
  }
}
