/** The TypeScript encoder: `Marshal` in javascript/mux/codec/encoder.ts. */
module TsEncoder {
  import opened Wrappers
  import opened Wire
  import GoCodec

  function Zeros(n: nat): seq<byte> {
    seq(n, _ => 0)
  }

  /** The packet, or nothing where the original throws a RangeError: the buffer of a data message is
      sized by its length field, so longer data does not fit and shorter data is padded with zeros. */
  function Encoded(m: Message): Option<seq<byte>> {
    if m.Data? && |m.data| > m.length then None
    else Some([TypeOf(m)] + Fields(m) + if m.Data? then m.data + Zeros(m.length - |m.data|) else [])
  }

  method Marshal(m: Message) returns (r: Option<array<byte>>)
    ensures r.Some? <==> Encoded(m).Some?
    ensures r.Some? ==> fresh(r.value) && Some(r.value[..]) == Encoded(m)
    ensures r.None? <==> m.Data? && |m.data| > m.length
    ensures r.Some? && !m.Data? ==> LaidOut(r.value[..], m)
    ensures r.Some? && m.Data? ==>
              && r.value.Length == 9 + m.length && LaidOut(r.value[..], m.(data := r.value[9..]))
              && r.value[9..9 + |m.data|] == m.data
              && forall i | 9 + |m.data| <= i < r.value.Length :: r.value[i] == 0
  {
    hide At, LaidOut;
    var data := GoCodec.NewPacket(TypeOf(m));
    GoCodec.FlattenIntegers(m);
    GoCodec.PutFields(data, GoCodec.Integers(m));
    assert data[..] == [TypeOf(m)] + Fields(m);
    if !m.Data? {
      NothingMore(data[..]);
      EncodeIsLaidOut(data[..], m);
      return Some(data);
    }
    if |m.data| > m.length {
      return None;
    }
    var buf := Fill(data, m.length, m.data);
    PaddedIsLaidOut(buf[..], m);
    assert buf[9..] == buf[..][9..] && buf[9..9 + |m.data|] == buf[..][9..9 + |m.data|];
    return Some(buf);
  }

  /** The fixed part and the data in a buffer with room for as many bytes as announced. */
  method Fill(fixed: array<byte>, length: u32, data: seq<byte>) returns (buf: array<byte>)
    requires |data| <= length
    ensures fresh(buf) && buf[..] == fixed[..] + (data + Zeros(length - |data|))
  {
    var k := fixed.Length;
    buf := new byte[k + length](_ => 0);
    forall i | 0 <= i < k {
      buf[i] := fixed[i];
    }
    forall i | k <= i < k + |data| {
      buf[i] := data[i - k];
    }
  }

  lemma PaddedIsLaidOut(p: seq<byte>, m: Message)
    requires m.Data? && |m.data| <= m.length && Some(p) == Encoded(m)
    ensures |p| == 9 + m.length && LaidOut(p, m.(data := p[9..]))
    ensures p[9..9 + |m.data|] == m.data && forall i | 9 + |m.data| <= i < |p| :: p[i] == 0
  {
    hide LaidOut;
    var more := m.data + Zeros(m.length - |m.data|);
    assert p == [DATA] + Fields(m) + more && |[DATA] + Fields(m)| == 9;
    assert p[9..] == more;
    EncodeIsLaidOut(p, m.(data := p[9..]));
  }

  /** The two encoders agree exactly on the messages whose length field is true. */
  lemma EncodersAgreeIff(m: Message)
    ensures Encoded(m) == Some(Encode(m)) <==> WellFormed(m)
  {
    if m.Data? && |m.data| <= m.length {
      var e := Encoded(m).value;
      assert |e| == 9 + m.length && |Encode(m)| == 9 + |m.data|;
      if |m.data| == m.length {
        assert m.data + Zeros(0) == m.data;
      }
    }
  }

  /** What this encoder emits is always a whole packet: decoding it gives the message back, with the
      data padded to the announced length. */
  lemma DecodeEncoded(m: Message, rest: seq<byte>)
    requires Encoded(m).Some?
    ensures Decode(Encoded(m).value + rest) ==
            Ok((if m.Data? then m.(data := m.data + Zeros(m.length - |m.data|)) else m, rest))
  {
    var p := if m.Data? then m.(data := m.data + Zeros(m.length - |m.data|)) else m;
    assert Encoded(m).value == Encode(p);
    DecodeEncode(p, rest);
  }
}
