/** Two stock result types, and two facts about sequences that the solver has to be reminded of. */
module Wrappers {
  datatype Option<+T> = None | Some(value: T)

  datatype Result<+T, +E> = Ok(value: T) | Err(error: E)

  lemma Regroup<T>(a: seq<T>, b: seq<T>, c: seq<T>)
    ensures (a + b) + c == a + (b + c)
  {
  }

  lemma NothingMore<T>(a: seq<T>)
    ensures a + [] == a == [] + a
  {
  }
}

/**
 The qmux wire format: message numbers, payload sizes, and the pure encoder and decoder
 that the Go and TypeScript codecs are both proved against.
 Integers follow section 5 of RFC 4251 (four bytes, most significant first).
 */
module Wire {
  import opened Wrappers

  const TWO32 := 0x1_0000_0000

  type byte = b: int | 0 <= b < 0x100
  type u32 = n: int | 0 <= n < 0x1_0000_0000

  /** The conversion to `uint32` keeps the low 32 bits. */
  function Uint32(n: nat): (r: u32)
    ensures r == n % 0x1_0000_0000
  {
    n % TWO32
  }

  /** Addition with 32-bit wrap-around. */
  function Sum32(a: u32, n: nat): (r: u32)
    ensures r == (a + n) % 0x1_0000_0000
  {
    Uint32(a + n)
  }

  const OPEN: byte := 100
  const OPEN_CONFIRM: byte := 101
  const OPEN_FAILURE: byte := 102
  const WINDOW_ADJUST: byte := 103
  const DATA: byte := 104
  const EOF: byte := 105
  const CLOSE: byte := 106

  datatype Message =
    | Open(senderId: u32, windowSize: u32, maxPacketSize: u32)
    | OpenConfirm(channelId: u32, senderId: u32, windowSize: u32, maxPacketSize: u32)
    | OpenFailure(channelId: u32)
    | WindowAdjust(channelId: u32, additionalBytes: u32)
    | Data(channelId: u32, length: u32, data: seq<byte>)
    | Eof(channelId: u32)
    | Close(channelId: u32)

  /** A message whose length field tells the truth; only data messages can fail to be. */
  predicate WellFormed(m: Message) {
    m.Data? ==> m.length == |m.data|
  }

  datatype WireError = EndOfStream | UnexpectedType(id: byte)

  /** Bytes that follow the type byte, the data payload excepted; an unknown type has none. */
  function PayloadSize(id: byte): nat {
    if id == OPEN then 12
    else if id == OPEN_CONFIRM then 16
    else if id == WINDOW_ADJUST || id == DATA then 8
    else if id == OPEN_FAILURE || id == EOF || id == CLOSE then 4
    else 0
  }

  // ---------------------------------------------------------------- integers

  function PutU32(n: u32): (b: seq<byte>)
    ensures |b| == 4
  {
    var q1, q2 := n / 0x100, n / 0x1_0000;
    [q2 / 0x100, q2 % 0x100, q1 % 0x100, n % 0x100]
  }

  function GetU32(b: seq<byte>): u32
    requires |b| == 4
  {
    (((b[0] as int * 0x100) + b[1] as int) * 0x100 + b[2] as int) * 0x100 + b[3] as int
  }

  lemma GetPut(n: u32)
    ensures GetU32(PutU32(n)) == n
  {
    var q1, q2 := n / 0x100, n / 0x1_0000;
    assert q2 == q1 / 0x100;
    assert q1 == q2 * 0x100 + q1 % 0x100;
    assert n == q1 * 0x100 + n % 0x100;
  }

  lemma PutGet(b: seq<byte>)
    requires |b| == 4
    ensures PutU32(GetU32(b)) == b
  {
    var n := GetU32(b);
    assert n / 0x100 == ((b[0] as int * 0x100) + b[1] as int) * 0x100 + b[2] as int;
    assert n / 0x1_0000 == n / 0x100 / 0x100 == b[0] as int * 0x100 + b[1] as int;
  }

  /** The four bytes from `at` on are n, most significant first. */
  predicate At(p: seq<byte>, at: nat, n: u32) {
    && at + 4 <= |p|
    && p[at] as int * 0x100_0000 + p[at + 1] as int * 0x1_0000 + p[at + 2] as int * 0x100 + p[at + 3] as int == n
  }

  /** Integers are read and written most significant byte first. */
  lemma BigEndian(p: seq<byte>, at: nat, n: u32)
    requires at + 4 <= |p|
    ensures GetU32(p[at..at + 4]) ==
            p[at] as int * 0x100_0000 + p[at + 1] as int * 0x1_0000 + p[at + 2] as int * 0x100 + p[at + 3] as int
    ensures At(p, at, n) <==> p[at..at + 4] == PutU32(n)
  {
    GetPut(n);
    PutGet(p[at..at + 4]);
  }

  lemma SliceOfSlice<T>(s: seq<T>, from: nat, to: nat, i: nat, j: nat)
    requires from + i <= from + j <= to <= |s|
    ensures s[from..to][i..j] == s[from + i..from + j]
  {
    var a, b := s[from..to][i..j], s[from + i..from + j];
    assert forall k | 0 <= k < |a| :: a[k] == b[k];
  }

  // ---------------------------------------------------------------- encoding

  function TypeOf(m: Message): byte {
    match m
    case Open(_, _, _) => OPEN
    case OpenConfirm(_, _, _, _) => OPEN_CONFIRM
    case OpenFailure(_) => OPEN_FAILURE
    case WindowAdjust(_, _) => WINDOW_ADJUST
    case Data(_, _, _) => DATA
    case Eof(_) => EOF
    case Close(_) => CLOSE
  }

  /** The fixed-size fields, in wire order. */
  function Fields(m: Message): (b: seq<byte>)
    ensures |b| == PayloadSize(TypeOf(m))
  {
    match m
    case Open(s, w, p) => PutU32(s) + PutU32(w) + PutU32(p)
    case OpenConfirm(c, s, w, p) => PutU32(c) + PutU32(s) + PutU32(w) + PutU32(p)
    case OpenFailure(c) => PutU32(c)
    case WindowAdjust(c, n) => PutU32(c) + PutU32(n)
    case Data(c, n, _) => PutU32(c) + PutU32(n)
    case Eof(c) => PutU32(c)
    case Close(c) => PutU32(c)
  }

  function Payload(m: Message): seq<byte> {
    if m.Data? then m.data else []
  }

  function Encode(m: Message): seq<byte> {
    [TypeOf(m)] + Fields(m) + Payload(m)
  }

  /** Byte by byte, the packet p of message m. */
  predicate LaidOut(p: seq<byte>, m: Message) {
    match m
    case Open(s, w, k) => |p| == 13 && p[0] == 100 && At(p, 1, s) && At(p, 5, w) && At(p, 9, k)
    case OpenConfirm(c, s, w, k) =>
      |p| == 17 && p[0] == 101 && At(p, 1, c) && At(p, 5, s) && At(p, 9, w) && At(p, 13, k)
    case OpenFailure(c) => |p| == 5 && p[0] == 102 && At(p, 1, c)
    case WindowAdjust(c, n) => |p| == 9 && p[0] == 103 && At(p, 1, c) && At(p, 5, n)
    case Data(c, n, data) => |p| >= 9 && p[0] == 104 && At(p, 1, c) && At(p, 5, n) && p[9..] == data
    case Eof(c) => |p| == 5 && p[0] == 105 && At(p, 1, c)
    case Close(c) => |p| == 5 && p[0] == 106 && At(p, 1, c)
  }

  // ---------------------------------------------------------------- decoding

  /** One packet off the front of a stream, and what is left of the stream. */
  function ReadPacket(s: seq<byte>): (r: Result<(seq<byte>, seq<byte>), WireError>)
    ensures r.Ok? ==> var (p, rest) := r.value; p + rest == s && |p| >= 1 && |p| >= 1 + PayloadSize(p[0])
    ensures r.Ok? ==>
              var p := r.value.0; |p| == 1 + PayloadSize(p[0]) + if p[0] == DATA then GetU32(p[5..9]) else 0
  {
    if |s| < 1 || |s| < 1 + PayloadSize(s[0]) then Err(EndOfStream)
    else
      var size := 1 + PayloadSize(s[0]) + if s[0] == DATA then GetU32(s[5..9]) else 0;
      if |s| < size then Err(EndOfStream) else Ok((s[..size], s[size..]))
  }

  /** The message a packet stands for, by its type byte. */
  function Unmarshal(p: seq<byte>): Result<Message, WireError>
    requires |p| >= 1 && |p| >= 1 + PayloadSize(p[0])
  {
    if p[0] == OPEN then Ok(Open(GetU32(p[1..5]), GetU32(p[5..9]), GetU32(p[9..13])))
    else if p[0] == DATA then Ok(Data(GetU32(p[1..5]), GetU32(p[5..9]), p[9..]))
    else if p[0] == OPEN_CONFIRM then
      Ok(OpenConfirm(GetU32(p[1..5]), GetU32(p[5..9]), GetU32(p[9..13]), GetU32(p[13..17])))
    else if p[0] == OPEN_FAILURE then Ok(OpenFailure(GetU32(p[1..5])))
    else if p[0] == WINDOW_ADJUST then Ok(WindowAdjust(GetU32(p[1..5]), GetU32(p[5..9])))
    else if p[0] == EOF then Ok(Eof(GetU32(p[1..5])))
    else if p[0] == CLOSE then Ok(Close(GetU32(p[1..5])))
    else Err(UnexpectedType(p[0]))
  }

  function Decode(s: seq<byte>): Result<(Message, seq<byte>), WireError> {
    match ReadPacket(s)
    case Err(e) => Err(e)
    case Ok((p, rest)) =>
      match Unmarshal(p)
      case Err(e) => Err(e)
      case Ok(m) => Ok((m, rest))
  }

  // ---------------------------------------------------------------- laws of one message

  /** Where the fixed fields sit in an encoded message. */
  lemma EncodeFields(m: Message, rest: seq<byte>)
    ensures var s := Encode(m) + rest;
            var k := 1 + PayloadSize(TypeOf(m));
            |s| >= k && s[0] == TypeOf(m) && s[1..k] == Fields(m) && s[k..] == Payload(m) + rest
  {
    hide Fields, Payload;
    Cut(TypeOf(m), Fields(m), Payload(m) + rest);
    assert Encode(m) + rest == [TypeOf(m)] + Fields(m) + (Payload(m) + rest);
  }

  lemma Cut(t: byte, f: seq<byte>, rest: seq<byte>)
    ensures var s := [t] + f + rest;
            s[0] == t && s[1..1 + |f|] == f && s[1 + |f|..] == rest
  {
  }

  /** The k-th field of a packet, read from the packet or from its fixed part. */
  lemma FieldSlices(p: seq<byte>)
    requires |p| >= 1 && |p| >= 1 + PayloadSize(p[0])
    ensures var f := p[1..1 + PayloadSize(p[0])];
            && (|f| >= 4 ==> f[0..4] == p[1..5])
            && (|f| >= 8 ==> f[4..8] == p[5..9])
            && (|f| >= 12 ==> f[8..12] == p[9..13])
            && (|f| >= 16 ==> f[12..16] == p[13..17])
  {
    var n := 1 + PayloadSize(p[0]);
    if n >= 5 { SliceOfSlice(p, 1, n, 0, 4); }
    if n >= 9 { SliceOfSlice(p, 1, n, 4, 8); }
    if n >= 13 { SliceOfSlice(p, 1, n, 8, 12); }
    if n >= 17 { SliceOfSlice(p, 1, n, 12, 16); }
  }

  /** The encoding of a message is its packet, byte by byte. */
  lemma EncodeIsLaidOut(p: seq<byte>, m: Message)
    ensures p == Encode(m) <==> LaidOut(p, m)
  {
    hide PutU32, GetU32, At, Encode, Fields;
    EncodeFields(m, []);
    assert Encode(m) + [] == Encode(m);
    if |p| >= 1 && p[0] == TypeOf(m) && |p| >= 1 + PayloadSize(p[0]) {
      EncodedIff(p, m);
      FieldsLaidOut(p, m);
    }
  }

  /** The fixed part, field by field. */
  lemma FieldsLaidOut(p: seq<byte>, m: Message)
    requires |p| >= 1 && p[0] == TypeOf(m) && |p| >= 1 + PayloadSize(p[0])
    ensures p[1..1 + PayloadSize(p[0])] == Fields(m) <==>
            match m
            case Open(s, w, k) => At(p, 1, s) && At(p, 5, w) && At(p, 9, k)
            case OpenConfirm(c, s, w, k) => At(p, 1, c) && At(p, 5, s) && At(p, 9, w) && At(p, 13, k)
            case OpenFailure(c) => At(p, 1, c)
            case WindowAdjust(c, n) => At(p, 1, c) && At(p, 5, n)
            case Data(c, n, _) => At(p, 1, c) && At(p, 5, n)
            case Eof(c) => At(p, 1, c)
            case Close(c) => At(p, 1, c)
  {
    hide PutU32, GetU32, At;
    var f := p[1..1 + PayloadSize(p[0])];
    match m
    case Open(s, w, k) =>
      Pair(p, 1, s, w);
      BigEndian(p, 9, k);
      assert f == p[1..9] + p[9..13];
      Halves(p[1..9], p[9..13], PutU32(s) + PutU32(w), PutU32(k));
    case OpenConfirm(c, s, w, k) =>
      Pair(p, 1, c, s);
      BigEndian(p, 9, w);
      BigEndian(p, 13, k);
      assert f == (p[1..9] + p[9..13]) + p[13..17];
      Halves(p[1..9] + p[9..13], p[13..17], PutU32(c) + PutU32(s) + PutU32(w), PutU32(k));
      Halves(p[1..9], p[9..13], PutU32(c) + PutU32(s), PutU32(w));
    case WindowAdjust(c, n) => Pair(p, 1, c, n);
    case Data(c, n, _) => Pair(p, 1, c, n);
    case _ => BigEndian(p, 1, m.channelId);
  }

  lemma Halves(a: seq<byte>, b: seq<byte>, x: seq<byte>, y: seq<byte>)
    requires |a| == |x|
    ensures a + b == x + y <==> a == x && b == y
  {
    if a + b == x + y {
      assert (a + b)[..|a|] == a && (x + y)[..|a|] == x;
      assert (a + b)[|a|..] == b && (x + y)[|a|..] == y;
    }
  }

  /** Two integers, one behind the other. */
  lemma Pair(p: seq<byte>, at: nat, m: u32, n: u32)
    requires at + 8 <= |p|
    ensures p[at..at + 8] == PutU32(m) + PutU32(n) <==> At(p, at, m) && At(p, at + 4, n)
  {
    hide PutU32, GetU32, At;
    BigEndian(p, at, m);
    BigEndian(p, at + 4, n);
    assert p[at..at + 8] == p[at..at + 4] + p[at + 4..at + 8];
    Halves(p[at..at + 4], p[at + 4..at + 8], PutU32(m), PutU32(n));
  }

  /** A packet with the right type is the encoding if its fixed part and its payload are. */
  lemma EncodedIff(p: seq<byte>, m: Message)
    requires |p| >= 1 && p[0] == TypeOf(m) && |p| >= 1 + PayloadSize(p[0])
    ensures var k := 1 + PayloadSize(p[0]);
            p == Encode(m) <==> p[1..k] == Fields(m) && p[k..] == Payload(m)
  {
    hide Fields, Payload;
    var k := 1 + PayloadSize(p[0]);
    EncodeFields(m, []);
    assert Encode(m) + [] == Encode(m) && Payload(m) + [] == Payload(m);
    assert p == [p[0]] + p[1..k] + p[k..];
  }

  /** The fixed fields determine every field of the message but the payload. */
  lemma FieldsAt(m: Message, p: seq<byte>)
    requires |p| >= 1 + PayloadSize(TypeOf(m)) && p[0] == TypeOf(m)
    requires p[1..1 + PayloadSize(TypeOf(m))] == Fields(m)
    requires p[1 + PayloadSize(TypeOf(m))..] == Payload(m)
    ensures Unmarshal(p) == Ok(m)
  {
    FieldSlices(p);
    match m
    case Open(s, w, q) => GetPut(s); GetPut(w); GetPut(q);
    case OpenConfirm(c, s, w, q) => GetPut(c); GetPut(s); GetPut(w); GetPut(q);
    case OpenFailure(c) => GetPut(c);
    case WindowAdjust(c, n) => GetPut(c); GetPut(n);
    case Data(c, n, _) => GetPut(c); GetPut(n);
    case Eof(c) => GetPut(c);
    case Close(c) => GetPut(c);
  }

  /** Decoding undoes encoding and leaves whatever follows, exactly when the length field is true. */
  lemma DecodeEncode(m: Message, rest: seq<byte>)
    requires WellFormed(m)
    ensures Decode(Encode(m) + rest) == Ok((m, rest))
  {
    var s := Encode(m) + rest;
    EncodeFields(m, rest);
    var k := 1 + PayloadSize(TypeOf(m));
    if m.Data? {
      assert s[5..9] == Fields(m)[4..8] == PutU32(m.length);
      GetPut(m.length);
    }
    var size := k + |Payload(m)|;
    assert s[..size] == Encode(m) && s[size..] == rest;
    assert ReadPacket(s) == Ok((Encode(m), rest));
    EncodeFields(m, []);
    assert Encode(m) + [] == Encode(m);
    FieldsAt(m, Encode(m));
  }

  /** A run of four-byte integers, put together again. */
  lemma Quarters(f: seq<byte>)
    requires |f| in {4, 8, 12, 16}
    ensures f == PutU32(GetU32(f[0..4])) + (if |f| >= 8 then PutU32(GetU32(f[4..8])) else [])
                 + (if |f| >= 12 then PutU32(GetU32(f[8..12])) else [])
                 + (if |f| == 16 then PutU32(GetU32(f[12..16])) else [])
  {
    hide GetU32, PutU32;
    PutGet(f[0..4]);
    if |f| >= 8 { PutGet(f[4..8]); }
    if |f| >= 12 { PutGet(f[8..12]); }
    if |f| == 16 { PutGet(f[12..16]); }
  }

  /** The fixed part of a packet is the fields of its message. */
  lemma UnmarshalFields(p: seq<byte>)
    requires |p| >= 1 && |p| >= 1 + PayloadSize(p[0]) && Unmarshal(p).Ok?
    ensures var m := Unmarshal(p).value;
            TypeOf(m) == p[0] && Fields(m) == p[1..1 + PayloadSize(p[0])]
  {
    hide GetU32, PutU32;
    FieldSlices(p);
    Quarters(p[1..1 + PayloadSize(p[0])]);
  }

  /** Encoding undoes decoding: the decoder accepts nothing but encodings of well-formed messages. */
  lemma EncodeDecode(s: seq<byte>)
    requires Decode(s).Ok?
    ensures var (m, rest) := Decode(s).value; WellFormed(m) && Encode(m) + rest == s
  {
    hide GetU32, PutU32, Fields;
    var (p, rest) := ReadPacket(s).value;
    var m := Unmarshal(p).value;
    UnmarshalFields(p);
    if p[0] == DATA { assert s[5..9] == p[5..9]; }
    assert p == [p[0]] + p[1..1 + PayloadSize(p[0])] + p[1 + PayloadSize(p[0])..];
    assert Encode(m) == p;
  }

  /** What decodes is a packet, byte by byte, and what is left is what follows it. */
  lemma DecodedIsLaidOut(s: seq<byte>)
    requires Decode(s).Ok?
    ensures var (m, rest) := Decode(s).value;
            |rest| <= |s| && s[|s| - |rest|..] == rest && WellFormed(m) && LaidOut(s[..|s| - |rest|], m)
  {
    hide Decode, Encode, LaidOut;
    EncodeDecode(s);
    var (m, rest) := Decode(s).value;
    assert s[..|s| - |rest|] == Encode(m);
    EncodeIsLaidOut(Encode(m), m);
  }

  /** Every packet decodes, whatever follows it. */
  lemma LaidOutDecodes(s: seq<byte>, p: seq<byte>, m: Message)
    requires WellFormed(m) && LaidOut(p, m) && p <= s
    ensures Decode(s) == Ok((m, s[|p|..]))
  {
    hide Decode, Encode, LaidOut;
    EncodeIsLaidOut(p, m);
    assert s == p + s[|p|..];
    DecodeEncode(m, s[|p|..]);
  }

  /** The decoder gives up on a type exactly when it is none of the seven. */
  lemma UnknownType(s: seq<byte>, id: byte)
    ensures Decode(s) == Err(UnexpectedType(id)) <==> s != [] && s[0] == id && !(100 <= id <= 106)
  {
  }

  /** A data message round-trips if and only if its length field is the length of its data. */
  lemma RoundTripIff(m: Message)
    ensures Decode(Encode(m)) == Ok((m, [])) <==> WellFormed(m)
  {
    hide Encode, Decode;
    assert Encode(m) + [] == Encode(m);
    if WellFormed(m) {
      DecodeEncode(m, []);
    } else if Decode(Encode(m)) == Ok((m, [])) {
      EncodeDecode(Encode(m));
      assert false;
    }
  }

  // ---------------------------------------------------------------- laws of a stream

  function EncodeAll(ms: seq<Message>): seq<byte> {
    if ms == [] then [] else Encode(ms[0]) + EncodeAll(ms[1..])
  }

  predicate AllWellFormed(ms: seq<Message>) {
    forall m | m in ms :: WellFormed(m)
  }

  /** The first n messages of a stream. */
  function DecodeMany(s: seq<byte>, n: nat): Result<(seq<Message>, seq<byte>), WireError> {
    if n == 0 then Ok(([], s))
    else
      match Decode(s)
      case Err(e) => Err(e)
      case Ok((m, rest)) =>
        match DecodeMany(rest, n - 1)
        case Err(e) => Err(e)
        case Ok((ms, end)) => Ok(([m] + ms, end))
  }

  lemma {:induction false} EncodeAllAppend(a: seq<Message>, b: seq<Message>)
    ensures EncodeAll(a + b) == EncodeAll(a) + EncodeAll(b)
  {
    hide Encode;
    if a == [] {
      assert a + b == b;
    } else {
      assert (a + b)[0] == a[0] && (a + b)[1..] == a[1..] + b;
      EncodeAllAppend(a[1..], b);
    }
  }

  lemma EncodeAllLast(ms: seq<Message>, m: Message)
    ensures EncodeAll(ms + [m]) == EncodeAll(ms) + Encode(m)
  {
    hide Encode;
    EncodeAllAppend(ms, [m]);
    assert EncodeAll([m]) == Encode(m) + EncodeAll([]);
  }

  lemma EncodeAllFirst(ms: seq<Message>, rest: seq<byte>)
    requires ms != []
    ensures EncodeAll(ms) + rest == Encode(ms[0]) + (EncodeAll(ms[1..]) + rest)
  {
    hide Encode;
    var e, t := Encode(ms[0]), EncodeAll(ms[1..]);
    assert (e + t) + rest == e + (t + rest);
  }

  /** The first message of what is left of a stream. */
  lemma DecodeAt(ms: seq<Message>, i: nat)
    requires i < |ms| && WellFormed(ms[i])
    ensures Decode(EncodeAll(ms[i..])) == Ok((ms[i], EncodeAll(ms[i + 1..])))
  {
    hide Decode, Encode;
    assert ms[i..][0] == ms[i] && ms[i..][1..] == ms[i + 1..];
    DecodeEncode(ms[i], EncodeAll(ms[i + 1..]));
  }

  /** Decoding the concatenated encodings of a list of messages returns the list and leaves the suffix. */
  lemma {:induction false} DecodeManyEncodeAll(ms: seq<Message>, rest: seq<byte>)
    requires AllWellFormed(ms)
    ensures DecodeMany(EncodeAll(ms) + rest, |ms|) == Ok((ms, rest))
  {
    hide Decode, Encode;
    if ms == [] {
      assert EncodeAll(ms) + rest == rest;
    } else {
      var tail := EncodeAll(ms[1..]) + rest;
      EncodeAllFirst(ms, rest);
      DecodeEncode(ms[0], tail);
      DecodeManyEncodeAll(ms[1..], rest);
      assert [ms[0]] + ms[1..] == ms;
    }
  }

  /** A stream that starts with the encoding of one message determines the message. */
  lemma DecodeUnique(m: Message, x: seq<byte>, n: Message, y: seq<byte>)
    requires WellFormed(m) && WellFormed(n) && Encode(m) + x == Encode(n) + y
    ensures m == n && x == y
  {
    hide Decode, Encode;
    DecodeEncode(m, x);
    DecodeEncode(n, y);
  }

  /** The format is a prefix code: a stream that starts with the encodings of two lists of messages
      starts with one list inside the other. */
  lemma {:induction false} PrefixCode(a: seq<Message>, b: seq<Message>, x: seq<byte>, y: seq<byte>)
    requires AllWellFormed(a) && AllWellFormed(b) && |a| <= |b|
    requires EncodeAll(a) + x == EncodeAll(b) + y
    ensures a <= b && x == EncodeAll(b[|a|..]) + y
  {
    hide Encode;
    if a == [] {
      assert b[0..] == b;
      assert EncodeAll(a) + x == x;
    } else {
      EncodeAllFirst(a, x);
      EncodeAllFirst(b, y);
      DecodeUnique(a[0], EncodeAll(a[1..]) + x, b[0], EncodeAll(b[1..]) + y);
      PrefixCode(a[1..], b[1..], x, y);
      assert b[1..][|a[1..]|..] == b[|a|..];
      assert a == [a[0]] + a[1..] && b == [b[0]] + b[1..];
    }
  }
}
