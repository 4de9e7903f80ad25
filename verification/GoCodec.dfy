/** The Go codec: `Marshal` in golang/mux/codec/encoder.go and `readPacket` and `decode` in
    golang/mux/codec/decoder.go, proved against the wire format. */
module GoCodec {
  import opened Wrappers
  import opened Wire

  // ---------------------------------------------------------------- encoder

  method PutUint32(p: array<byte>, at: nat, n: u32)
    requires at + 4 <= p.Length
    modifies p
    ensures p[..] == old(p[..at]) + PutU32(n) + old(p[at + 4..])
  {
    var b := PutU32(n);
    p[at], p[at + 1], p[at + 2], p[at + 3] := b[0], b[1], b[2], b[3];
  }

  /** A packet for the fixed part of a message, with its type byte set. */
  method NewPacket(id: byte) returns (p: array<byte>)
    ensures fresh(p) && p.Length == 1 + PayloadSize(id) && p[0] == id
  {
    p := new byte[PayloadSize(id) + 1];
    p[0] := id;
  }

  /** Write the fields one after the other. */
  method PutFields(p: array<byte>, fields: seq<u32>)
    requires p.Length == 1 + 4 * |fields|
    modifies p
    ensures p[..] == [old(p[0])] + Flatten(fields)
  {
    for i := 0 to |fields|
      invariant p[..1 + 4 * i] == [old(p[0])] + Flatten(fields[..i])
    {
      ghost var done := p[..1 + 4 * i];
      PutUint32(p, 1 + 4 * i, fields[i]);
      assert p[..1 + 4 * (i + 1)] == done + PutU32(fields[i]);
      assert fields[..i + 1] == fields[..i] + [fields[i]];
      FlattenAppend(fields[..i], fields[i]);
    }
    assert p[..1 + 4 * |fields|] == p[..] && fields[..|fields|] == fields;
  }

  function Flatten(fields: seq<u32>): seq<byte> {
    if fields == [] then [] else PutU32(fields[0]) + Flatten(fields[1..])
  }

  lemma {:induction false} FlattenAppend(a: seq<u32>, n: u32)
    ensures Flatten(a + [n]) == Flatten(a) + PutU32(n)
  {
    if a == [] {
      assert a + [n] == [n];
      assert Flatten([n]) == PutU32(n) + Flatten([]);
    } else {
      assert (a + [n])[1..] == a[1..] + [n];
      FlattenAppend(a[1..], n);
      assert PutU32(a[0]) + (Flatten(a[1..]) + PutU32(n)) == (PutU32(a[0]) + Flatten(a[1..])) + PutU32(n);
    }
  }

  /** The integers of a message, in wire order. */
  function Integers(m: Message): seq<u32> {
    match m
    case Open(s, w, p) => [s, w, p]
    case OpenConfirm(c, s, w, p) => [c, s, w, p]
    case OpenFailure(c) => [c]
    case WindowAdjust(c, n) => [c, n]
    case Data(c, n, _) => [c, n]
    case Eof(c) => [c]
    case Close(c) => [c]
  }

  lemma FlattenIntegers(m: Message)
    ensures Flatten(Integers(m)) == Fields(m) && PayloadSize(TypeOf(m)) == 4 * |Integers(m)|
  {
    var f := Integers(m);
    assert Flatten(f) == PutU32(f[0]) + Flatten(f[1..]);
    if |f| > 1 { assert Flatten(f[1..]) == PutU32(f[1]) + Flatten(f[2..]); }
    if |f| > 2 { assert Flatten(f[2..]) == PutU32(f[2]) + Flatten(f[3..]); }
    if |f| > 3 { assert Flatten(f[3..]) == PutU32(f[3]) + Flatten(f[4..]); }
  }

  /** Allocates a packet, writes the type and the fields in place, and appends the payload of a data
      message, whatever its length field says. */
  method Marshal(m: Message) returns (packet: array<byte>)
    ensures fresh(packet) && packet[..] == Encode(m)
    ensures m.Open? ==>
              && packet.Length == 13 && packet[0] == 100
              && At(packet[..], 1, m.senderId) && At(packet[..], 5, m.windowSize) && At(packet[..], 9, m.maxPacketSize)
    ensures m.OpenConfirm? ==>
              && packet.Length == 17 && packet[0] == 101
              && At(packet[..], 1, m.channelId) && At(packet[..], 5, m.senderId)
              && At(packet[..], 9, m.windowSize) && At(packet[..], 13, m.maxPacketSize)
    ensures m.OpenFailure? ==> packet.Length == 5 && packet[0] == 102 && At(packet[..], 1, m.channelId)
    ensures m.WindowAdjust? ==>
              && packet.Length == 9 && packet[0] == 103
              && At(packet[..], 1, m.channelId) && At(packet[..], 5, m.additionalBytes)
    ensures m.Data? ==>
              && packet.Length == 9 + |m.data| && packet[0] == 104
              && At(packet[..], 1, m.channelId) && At(packet[..], 5, m.length) && packet[9..] == m.data
    ensures m.Eof? ==> packet.Length == 5 && packet[0] == 105 && At(packet[..], 1, m.channelId)
    ensures m.Close? ==> packet.Length == 5 && packet[0] == 106 && At(packet[..], 1, m.channelId)
  {
    packet := NewPacket(TypeOf(m));
    FlattenIntegers(m);
    PutFields(packet, Integers(m));
    if m.Data? {
      packet := Append(packet, m.data);
    }
    hide At;
    EncodeIsLaidOut(packet[..], m);
    assert packet[0] == packet[..][0] && (m.Data? ==> packet[9..] == packet[..][9..]);
  }

  method Append(p: array<byte>, data: seq<byte>) returns (r: array<byte>)
    ensures fresh(r) && r[..] == p[..] + data
  {
    r := new byte[p.Length + |data|];
    forall i | 0 <= i < p.Length {
      r[i] := p[i];
    }
    forall i | 0 <= i < |data| {
      r[p.Length + i] := data[i];
    }
  }

  // ---------------------------------------------------------------- decoder

  /** A transport whose `Read` fills its slice or fails. */
  class Reader {
    var stream: seq<byte>

    constructor (stream: seq<byte>)
      ensures this.stream == stream
    {
      this.stream := stream;
    }

    method Read(p: array<byte>) returns (ok: bool)
      modifies this, p
      ensures ok <==> p.Length <= |old(stream)|
      ensures ok ==> p[..] == old(stream)[..p.Length] && stream == old(stream)[p.Length..]
      ensures !ok ==> stream == old(stream)
    {
      ok := p.Length <= |stream|;
      if ok {
        forall i | 0 <= i < p.Length {
          p[i] := stream[i];
        }
        stream := stream[p.Length..];
      }
    }
  }

  method ReadPacket(c: Reader) returns (r: Result<seq<byte>, WireError>)
    modifies c
    ensures match Wire.ReadPacket(old(c.stream))
            case Ok((p, rest)) => r == Ok(p) && c.stream == rest
            case Err(e) => r == Err(e)
  {
    ghost var s := c.stream;
    var msgNum := new byte[1];
    var ok := c.Read(msgNum);
    if !ok {
      return Err(EndOfStream);
    }
    assert msgNum[0] == msgNum[..][0] == s[0];
    var rest := new byte[PayloadSize(msgNum[0])];
    ok := c.Read(rest);
    if !ok {
      return Err(EndOfStream);
    }
    var packet := msgNum[..] + rest[..];
    assert packet == s[..|packet|] && c.stream == s[|packet|..];
    if msgNum[0] == DATA {
      assert rest[4..8] == packet[5..9] == s[5..9];
      var data := new byte[GetU32(rest[4..8])];
      ok := c.Read(data);
      if !ok {
        return Err(EndOfStream);
      }
      packet := packet + data[..];
      assert packet == s[..|packet|] && c.stream == s[|packet|..];
    }
    return Ok(packet);
  }

  /** What decodes is a packet, every packet decodes, and the decoder gives up on no other type. */
  lemma Decodings(s: seq<byte>)
    ensures match Wire.Decode(s)
            case Ok((m, rest)) => |rest| <= |s| && WellFormed(m) && LaidOut(s[..|s| - |rest|], m)
            case Err(_) => true
    ensures forall p, m | p <= s && WellFormed(m) && LaidOut(p, m) :: Wire.Decode(s) == Ok((m, s[|p|..]))
    ensures forall id :: Wire.Decode(s) == Err(UnexpectedType(id)) <==> s != [] && s[0] == id && !(100 <= id <= 106)
  {
    hide Wire.Decode, LaidOut;
    if Wire.Decode(s).Ok? { DecodedIsLaidOut(s); }
    forall p, m | p <= s && WellFormed(m) && LaidOut(p, m) ensures Wire.Decode(s) == Ok((m, s[|p|..])) {
      LaidOutDecodes(s, p, m);
    }
    forall id: byte
      ensures Wire.Decode(s) == Err(UnexpectedType(id)) <==> s != [] && s[0] == id && !(100 <= id <= 106)
    {
      UnknownType(s, id);
    }
  }

  method Decode(c: Reader) returns (r: Result<Message, WireError>)
    modifies c
    ensures match Wire.Decode(old(c.stream))
            case Ok((m, rest)) => r == Ok(m) && c.stream == rest
            case Err(e) => r == Err(e)
    ensures r.Ok? ==>
              && |c.stream| <= |old(c.stream)| && WellFormed(r.value)
              && LaidOut(old(c.stream)[..|old(c.stream)| - |c.stream|], r.value)
    ensures forall p, m | p <= old(c.stream) && WellFormed(m) && LaidOut(p, m) ::
              r == Ok(m) && c.stream == old(c.stream)[|p|..]
    ensures forall id :: r == Err(UnexpectedType(id)) <==>
                         old(c.stream) != [] && old(c.stream)[0] == id && !(100 <= id <= 106)
  {
    hide LaidOut;
    Decodings(c.stream);
    var packet := ReadPacket(c);
    match packet
    case Err(e) => r := Err(e);
    case Ok(p) => r := Unmarshal(p);
  }

  method MarshalAll(ms: seq<Message>) returns (wire: seq<byte>)
    ensures wire == EncodeAll(ms)
  {
    wire := [];
    for i := 0 to |ms|
      invariant wire == EncodeAll(ms[..i])
    {
      var p := Marshal(ms[i]);
      wire := wire + p[..];
      assert ms[..i + 1] == ms[..i] + [ms[i]];
      EncodeAllLast(ms[..i], ms[i]);
    }
    assert ms[..|ms|] == ms;
  }

  /** Decoding what was marshalled, one message after the other, gives the messages back. */
  method Transmit(ms: seq<Message>) returns (received: seq<Message>)
    requires AllWellFormed(ms)
    ensures received == ms
  {
    hide Encode, Wire.Decode;
    var wire := MarshalAll(ms);
    assert ms[0..] == ms && ms[..0] == [];
    var c := new Reader(wire);
    received := [];
    for i := 0 to |ms|
      invariant c.stream == EncodeAll(ms[i..]) && received == ms[..i] && fresh(c)
    {
      DecodeAt(ms, i);
      var r := Decode(c);
      received := received + [r.value];
    }
  }
}
