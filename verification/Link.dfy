/**
 One channel pair seen on its own: two channel ends and the messages in flight between them.
 This is the protocol of sections 5.1 to 5.3 of RFC 4254 without multiplexing; Network.dfy shows
 that two sessions are a bundle of such links.
 */
module Link {
  import opened Wrappers
  import opened Wire
  import opened Endpoint
  import Credit

  // ---------------------------------------------------------------- history

  /**
   What has happened to a channel. No function of Endpoint can see it; it lets the invariants speak of
   the past: the channel at the other side, the bytes `Write` has emitted and `Read` has returned, the
   bytes emitted before the first Eof or Close, how many Close messages were sent, whether an Eof or
   Close, and whether a Close, was handled, and how often `close` ran. The last three are not of the past:
   they are where the channel's users are. `reserved` are the chunks for which iterations of `Write` have
   reserved credit and which they have still to encode, `owed` the pieces that calls of `Read` have taken and
   have still to give back to the window, and `requesting` says that `Open` has still to send the request.
   */
  datatype Hist = Hist(
    peer: Option<nat>,
    sent: seq<byte>,
    read: seq<byte>,
    mark: Option<seq<byte>>,
    closes: nat,
    gotMark: bool,
    gotClose: bool,
    closeRuns: nat,
    reserved: seq<seq<byte>>,
    owed: seq<seq<byte>>,
    requesting: bool)

  const NEW_HIST := Hist(None, [], [], None, 0, false, false, 0, [], [], false)

  /** Record the sending of one message. */
  function Note(h: Hist, m: Message): Hist {
    h.(sent := h.sent + Payload(m),
       mark := if (m.Eof? || m.Close?) && h.mark.None? then Some(h.sent) else h.mark,
       closes := h.closes + if m.Close? then 1 else 0)
  }

  function NoteAll(h: Hist, out: seq<Message>): Hist
    decreases |out|
  {
    if out == [] then h else NoteAll(Note(h, out[0]), out[1..])
  }

  /** Record the handling of one message. */
  function NoteHandled(h: Hist, m: Message): Hist {
    h.(gotMark := h.gotMark || m.Eof? || m.Close?,
       gotClose := h.gotClose || m.Close?)
  }

  // ---------------------------------------------------------------- ends and their steps

  /** A channel end: `live` when it is in its session's table, `dead` when that session's loop has ended,
      `confirming` when that loop is about to confirm it. */
  datatype End = End(c: Chan, h: Hist, live: bool, dead: bool, confirming: bool)

  /** A user holds a channel once it was accepted, or once `Open` returned it. */
  predicate Usable(c: Chan) {
    c.direction.Inbound? || (c.msg != [] && c.msg[0].OpenConfirm?)
  }

  /**
   When a user call takes its step. An iteration of `Write` has something left to write and waits while
   there is no credit. `Write` looks at `sentEOF` only before its first iteration, so an iteration may
   follow a concurrent `CloseWrite`; it never looks at `sentClose`. The second steps are for what the first
   ones have left.
   */
  predicate MayApply(c: Chan, h: Hist, op: UserOp) {
    && Usable(c)
    && (op.Write? ==> op.data != [] && (c.winClosed || c.remoteWin > 0))
    && (op.Encode? ==> op.k < |h.reserved| && h.reserved[op.k] == op.chunk)
    && (op.Adjust? ==> op.k < |h.owed| && |h.owed[op.k]| == op.n)
  }

  /** A chunk encoded behind the channel's Close, or a Close that goes out before the channel's
      confirmation. */
  predicate Stale(e: End, op: UserOp) {
    (op.Encode? && e.h.closes > 0) || (op.Close? && e.confirming && !e.c.sentClose)
  }

  function Without(chunks: seq<seq<byte>>, k: nat): seq<seq<byte>> {
    if k < |chunks| then chunks[..k] + chunks[k + 1..] else chunks
  }

  /** The chunks that are reserved after a step of a user. */
  function ReservedAfter(c: Chan, h: Hist, op: UserOp): seq<seq<byte>> {
    match op
    case Write(data) => if c.winClosed then h.reserved else h.reserved + [data[..Chunk(c, data)]]
    case Encode(k, _) => Without(h.reserved, k)
    case _ => h.reserved
  }

  /** The pieces that are owed after a step of a user. */
  function OwedAfter(c: Chan, h: Hist, op: UserOp): seq<seq<byte>> {
    match op
    case Read(len) => (var taken := TakeBytes(c, len).bytes; if taken == [] then h.owed else h.owed + [taken])
    case Adjust(k, _) => Without(h.owed, k)
    case _ => h.owed
  }

  /** The history of a channel after a step of a user, before what the step has sent. */
  function Stepped(h: Hist, c: Chan, op: UserOp): Hist {
    h.(read := h.read + Apply(c, op).bytes, reserved := ReservedAfter(c, h, op), owed := OwedAfter(c, h, op))
  }

  function UserHist(h: Hist, c: Chan, op: UserOp): Hist {
    NoteAll(Stepped(h, c, op), Apply(c, op).out)
  }

  function UserStep(e: End, op: UserOp): End {
    e.(c := Apply(e.c, op).c, h := UserHist(e.h, e.c, op))
  }

  function HandleStep(e: End, m: Message): End {
    var r := Handle(e.c, m);
    e.(c := r.c, h := NoteAll(NoteHandled(e.h, m), r.out), live := e.live && r.freed.None?)
  }

  /** The step after the queueing of a channel. */
  function ConfirmStep(e: End): End {
    e.(h := Note(e.h, Confirm(e.c)), confirming := false)
  }

  /** The two steps after the reply to a Close. */
  function FreeStep(e: End): End {
    e.(live := false)
  }

  function ShutStep(e: End): End {
    e.(c := Shut(e.c), h := e.h.(closeRuns := e.h.closeRuns + 1))
  }

  function FailStep(e: End): End {
    if e.live then e.(c := Shut(e.c), h := e.h.(closeRuns := e.h.closeRuns + 1), live := false, dead := true)
    else e.(dead := true)
  }

  /** The acceptor's end as `handleOpen` creates it; `opener` is the channel at the other side. */
  function Accepted(m: Message, id: u32, opener: nat): End
    requires m.Open?
  {
    End(InboundChan(m, id), NEW_HIST.(peer := Some(opener)), true, false, true)
  }

  // ---------------------------------------------------------------- what is in flight

  /**
   Everything a queue of messages will do to the end that receives it: the data bytes, the credit of
   window adjustments, the initial credit of a confirmation, the number of Close messages, whether
   there is an Eof or Close, and the data bytes before the first one.
   */
  datatype Tally = Tally(data: seq<byte>, adjust: nat, initial: nat, closes: nat, marked: bool, before: seq<byte>)

  const NOTHING := Tally([], 0, 0, 0, false, [])

  function Of(m: Message): Tally {
    match m
    case Data(_, _, d) => Tally(d, 0, 0, 0, false, d)
    case WindowAdjust(_, n) => Tally([], n, 0, 0, false, [])
    case OpenConfirm(_, _, w, _) => Tally([], 0, w, 0, false, [])
    case Close(_) => Tally([], 0, 0, 1, true, [])
    case Eof(_) => Tally([], 0, 0, 0, true, [])
    case _ => NOTHING
  }

  function Plus(a: Tally, b: Tally): Tally {
    Tally(a.data + b.data, a.adjust + b.adjust, a.initial + b.initial, a.closes + b.closes,
          a.marked || b.marked, if a.marked then a.before else a.before + b.before)
  }

  function Total(q: seq<Message>): Tally {
    if q == [] then NOTHING else Plus(Of(q[0]), Total(q[1..]))
  }

  lemma PlusAssociative(a: Tally, b: Tally, c: Tally)
    ensures Plus(Plus(a, b), c) == Plus(a, Plus(b, c))
  {
    assert (a.data + b.data) + c.data == a.data + (b.data + c.data);
    assert (a.before + b.before) + c.before == a.before + (b.before + c.before);
  }

  lemma PlusUnit(a: Tally)
    ensures Plus(NOTHING, a) == a == Plus(a, NOTHING)
  {
    assert [] + a.data == a.data && [] + a.before == a.before;
  }

  lemma TotalOne(m: Message)
    ensures Total([m]) == Of(m)
  {
    hide Plus;
    assert [m][1..] == [];
    PlusUnit(Of(m));
  }

  lemma {:induction false} TotalAppend(q: seq<Message>, m: Message)
    ensures Total(q + [m]) == Plus(Total(q), Of(m))
  {
    hide Plus, Of;
    if q == [] {
      assert q + [m] == [m];
      TotalOne(m);
      PlusUnit(Of(m));
    } else {
      var tail := q[1..];
      TotalAppend(tail, m);
      assert Total(q + [m]) == Plus(Of(q[0]), Total(tail + [m])) by {
        assert (q + [m])[1..] == tail + [m];
      }
      PlusAssociative(Of(q[0]), Total(tail), Of(m));
    }
  }

  /** What a last message is to the tally of a queue. */
  lemma PushFacts(q: seq<Message>, m: Message)
    ensures var t, all := Total(q), Total(q + [m]);
            && all.data == (if m.Data? then t.data + m.data else t.data)
            && all.adjust == t.adjust + (if m.WindowAdjust? then m.additionalBytes else 0)
            && all.initial == t.initial + (if m.OpenConfirm? then m.windowSize else 0)
            && all.closes == t.closes + (if m.Close? then 1 else 0)
            && all.marked == (t.marked || m.Eof? || m.Close?)
            && all.before == (if m.Data? && !t.marked then t.before + m.data else t.before)
  {
    hide Total;
    TotalAppend(q, m);
    NothingMore(Total(q).data);
    NothingMore(Total(q).before);
  }

  lemma {:induction false} NoCloseInside(q: seq<Message>)
    ensures Total(q).closes == 0 ==> forall m | m in q :: !m.Close?
  {
    if q != [] {
      NoCloseInside(q[1..]);
      assert q == [q[0]] + q[1..];
    }
  }

  lemma {:induction false} UnmarkedBefore(q: seq<Message>)
    ensures !Total(q).marked ==> Total(q).before == Total(q).data
    ensures Total(q).before <= Total(q).data
  {
    if q != [] {
      UnmarkedBefore(q[1..]);
    }
  }

  predicate NoResponse(q: seq<Message>) {
    forall m | m in q :: !m.OpenConfirm?
  }

  /** The number of confirmations in a queue. */
  function Confirms(q: seq<Message>): nat {
    if q == [] then 0 else (if q[0].OpenConfirm? then 1 else 0) + Confirms(q[1..])
  }

  /** Every confirmation brings the initial window. */
  lemma {:induction false} ConfirmsBring(q: seq<Message>)
    requires forall m | m in q && m.OpenConfirm? :: m.windowSize == CHANNEL_WINDOW_SIZE
    ensures Total(q).initial == Confirms(q) * CHANNEL_WINDOW_SIZE
    ensures NoResponse(q) ==> Confirms(q) == 0
  {
    if q != [] {
      assert q[0] in q && forall m | m in q[1..] :: m in q;
      ConfirmsBring(q[1..]);
    }
  }

  /** Without initial credit there is no confirmation. */
  lemma {:induction false} NoInitialInside(q: seq<Message>)
    requires forall m | m in q && m.OpenConfirm? :: m.windowSize > 0
    ensures Total(q).initial == 0 ==> NoResponse(q)
  {
    if q != [] {
      assert q[0] in q && q == [q[0]] + q[1..];
      NoInitialInside(q[1..]);
    }
  }

  // ---------------------------------------------------------------- the invariant

  /** A message that can be in flight to a channel with local number `id`. */
  predicate Addressed(m: Message, id: u32) {
    && !m.Open?
    && !m.OpenFailure?
    && m.channelId == id
    && (m.Data? ==> m.length == |m.data| && m.length <= CHANNEL_MAX_PACKET)
    && (m.OpenConfirm? ==> m.windowSize == CHANNEL_WINDOW_SIZE)
  }

  /** What holds of one end whatever the other does. */
  predicate Local(e: End) {
    && e.c.myWindow + |e.c.pending| + Bytes(e.h.owed) == CHANNEL_WINDOW_SIZE
    && Bytes(e.h.owed) <= |e.h.read|
    && e.c.maxIncomingPayload == CHANNEL_MAX_PACKET
    && (e.dead ==> e.c.winClosed)
    && (e.c.winClosed ==> !e.live && e.c.sentClose && (e.h.gotClose || e.dead))
    && (!e.live && !e.c.winClosed ==> e.h.gotClose)
    && (e.c.msgClosed <==> e.c.winClosed)
    && (e.h.gotClose ==> e.h.gotMark && e.c.sentClose)
    && (e.c.pendingClosed ==> e.h.gotMark || e.dead)
    && e.h.closeRuns == (if e.c.winClosed then 1 else 0)
    && (e.h.reserved != [] ==> Usable(e.c))
    && (forall chunk | chunk in e.h.reserved :: |chunk| <= CHANNEL_MAX_PACKET)
  }

  function Bytes(chunks: seq<seq<byte>>): nat {
    if chunks == [] then 0 else |chunks[0]| + Bytes(chunks[1..])
  }

  lemma {:induction false} BytesAppend(chunks: seq<seq<byte>>, chunk: seq<byte>)
    ensures Bytes(chunks + [chunk]) == Bytes(chunks) + |chunk|
  {
    if chunks == [] {
      assert chunks + [chunk] == [chunk];
      assert Bytes([chunk]) == |chunk| + Bytes([chunk][1..]);
    } else {
      assert (chunks + [chunk])[1..] == chunks[1..] + [chunk];
      BytesAppend(chunks[1..], chunk);
    }
  }

  lemma {:induction false} BytesWithout(chunks: seq<seq<byte>>, k: nat)
    requires k < |chunks|
    ensures Bytes(Without(chunks, k)) + |chunks[k]| == Bytes(chunks)
    ensures forall chunk | chunk in Without(chunks, k) :: chunk in chunks
  {
    if k == 0 {
      assert Without(chunks, 0) == chunks[1..];
    } else {
      assert Without(chunks, k) == [chunks[0]] + Without(chunks[1..], k - 1);
      assert Without(chunks, k)[1..] == Without(chunks[1..], k - 1);
      BytesWithout(chunks[1..], k - 1);
    }
  }

  /** The bytes that have reached an end. */
  function Arrived(e: End): seq<byte> {
    e.h.read + e.c.pending
  }

  /** Bytes arrive in the order they were written: read, then buffered, then in flight. */
  predicate Fifo(s: End, r: End, q: seq<Message>) {
    Arrived(r) + Total(q).data == s.h.sent
  }

  /** The credit a sender has or has reserved, or will have once all that is in flight, or about to be, has
      arrived. */
  function CreditInSystem(s: End, r: End, q: seq<Message>, b: seq<Message>): nat {
    s.c.remoteWin + Bytes(s.h.reserved) + |Total(q).data| + Total(b).adjust + Total(b).initial
    + if r.confirming then CHANNEL_WINDOW_SIZE else 0
  }

  predicate Conserved(s: End, r: End, q: seq<Message>, b: seq<Message>) {
    && CreditInSystem(s, r, q, b) <= r.c.myWindow
    && (!r.c.sentClose && !s.dead ==> CreditInSystem(s, r, q, b) == r.c.myWindow)
  }

  /** One Close at most, both sides agree on where it is, and while the receiver's session runs nothing
      is behind it. */
  predicate CloseOnce(s: End, r: End, q: seq<Message>) {
    && s.h.closes == Total(q).closes + (if r.h.gotClose then 1 else 0)
    && s.h.closes <= 1
    && (s.h.closes == 1 ==> s.c.sentClose)
    && (s.c.sentClose ==> s.h.closes == 1 || s.dead)
    && (!r.dead ==> (r.h.gotClose ==> q == []) && forall k | 0 <= k < |q| - 1 :: !q[k].Close?)
  }

  /** Where the sender's first Eof or Close is, and which bytes precede it. */
  predicate Marked(s: End, r: End, q: seq<Message>) {
    if r.h.gotMark then
      s.h.mark.Some? && s.h.mark.value <= Arrived(r)
    else
      && (s.h.mark.Some? <==> Total(q).marked)
      && (s.h.mark.Some? ==> s.h.mark.value == Arrived(r) + Total(q).before)
  }

  /** One direction: sender s, receiver r, queue q from s to r, queue b back from r to s. */
  predicate Half(s: End, r: End, q: seq<Message>, b: seq<Message>) {
    && (forall m | m in q :: Addressed(m, r.c.localId))
    && Fifo(s, r, q)
    && Conserved(s, r, q, b)
    && CloseOnce(s, r, q)
    && Marked(s, r, q)
  }

  function Confirmation(x: End, y: End): Message {
    OpenConfirm(x.c.localId, y.c.localId, CHANNEL_WINDOW_SIZE, CHANNEL_MAX_PACKET)
  }

  /**
   Opener x and acceptor y: the confirmation is about to be encoded, or it is in flight, or x has handled
   it. Until then x sends nothing, and y no Close before it, unless x's session has ended.
   */
  predicate Handshake(x: End, y: End, fwd: seq<Message>, back: seq<Message>) {
    && x.c.direction.Outbound? && y.c.direction.Inbound?
    && y.c.remoteId == x.c.localId
    && y.c.maxRemotePayload == CHANNEL_MAX_PACKET
    && !x.h.requesting && !y.h.requesting
    && !x.confirming && (y.confirming ==> y.live && !y.c.winClosed)
    && NoResponse(fwd)
    && if x.c.msg == [] then
         && fwd == []
         && x.h.sent == []
         && !x.h.gotClose
         && x.h.closes == 0 && x.h.mark.None?
         && (forall m | m in back && m.OpenConfirm? :: m == Confirmation(x, y))
         && Total(back).initial == (if y.confirming then 0 else CHANNEL_WINDOW_SIZE)
         && (y.confirming && !x.dead ==> y.h.closes == 0)
       else
         && x.c.msg == [Confirmation(x, y)]
         && !y.confirming
         && NoResponse(back)
         && x.c.remoteId == y.c.localId
         && x.c.maxRemotePayload == CHANNEL_MAX_PACKET
  }

  /** The invariant of a link, the same seen from either end. */
  predicate Inv(s: End, r: End, q: seq<Message>, b: seq<Message>, sOpened: bool) {
    && Local(s) && Local(r)
    && Half(s, r, q, b) && Half(r, s, b, q)
    && Shaken(s, r, q, b, sOpened)
  }

  predicate Shaken(s: End, r: End, q: seq<Message>, b: seq<Message>, sOpened: bool) {
    if sOpened then Handshake(s, r, q, b) else Handshake(r, s, b, q)
  }

  /** An opener whose request has not been sent, or not been handled yet. */
  predicate Opening(x: End, q: seq<Message>) {
    && Local(x)
    && x.c.direction.Outbound? && !x.confirming
    && q == (if x.h.requesting then [] else [Open(x.c.localId, CHANNEL_WINDOW_SIZE, CHANNEL_MAX_PACKET)])
    && x.c.msg == [] && x.c.remoteWin == 0 && x.c.pending == []
    && !x.h.gotClose && !x.h.gotMark && x.h.closes == 0
    && x.h.sent == [] && x.h.read == [] && x.h.mark.None? && x.h.reserved == [] && x.h.owed == []
    && (x.c.sentClose ==> x.dead)
  }

  // ---------------------------------------------------------------- user calls keep the invariant

  /** A message that carries no credit changes nothing for the other direction. */
  lemma PushReceives(s: End, s': End, r: End, q: seq<Message>, b: seq<Message>, m: Message)
    requires Half(r, s, b, q) && !m.WindowAdjust? && !m.OpenConfirm?
    requires s'.c.pending == s.c.pending && s'.c.myWindow == s.c.myWindow && s'.c.localId == s.c.localId
    requires s'.h.read == s.h.read && s'.h.gotMark == s.h.gotMark && s'.h.gotClose == s.h.gotClose
    requires (s.c.sentClose ==> s'.c.sentClose) && s'.confirming == s.confirming && s'.dead == s.dead
    ensures Half(r, s', b, q + [m])
  {
    hide Total, Plus, Of, Addressed;
    PushFacts(q, m);
  }

  /** What a user may send changes nothing about the opening of the channel. */
  lemma PushShaken(s: End, s': End, r: End, q: seq<Message>, b: seq<Message>, sOpened: bool, m: Message)
    requires Shaken(s, r, q, b, sOpened) && Usable(s.c) && !m.OpenConfirm?
    requires s'.c == s.c.(sentEOF := s'.c.sentEOF, sentClose := s'.c.sentClose, remoteWin := s'.c.remoteWin)
    requires s'.live == s.live && s'.dead == s.dead && s'.confirming == s.confirming
    requires s'.h.gotClose == s.h.gotClose && s'.h.requesting == s.h.requesting
    requires s.confirming && !r.dead ==> s'.h.closes == 0 || s'.h.closes == s.h.closes
    ensures Shaken(s', r, q + [m], b, sOpened)
  {
    hide Total, Plus, Of;
    PushFacts(q, m);
  }

  /** Sending an Eof or a Close. */
  lemma SendSends(s: End, s': End, r: End, q: seq<Message>, b: seq<Message>, m: Message)
    requires Half(s, r, q, b) && !s.c.sentClose && Addressed(m, r.c.localId) && (m.Eof? || m.Close?)
    requires s' == s.(c := s.c.(sentClose := m.Close?), h := Note(s.h, m))
    ensures Half(s', r, q + [m], b)
  {
    hide Total, Plus, Of, Addressed;
    PushFacts(q, m);
    NoCloseInside(q);
    UnmarkedBefore(q);
    var t := Total(q);
    assert t.data + [] == t.data && t.before + [] == t.before && s.h.sent + [] == s.h.sent;
  }

  lemma SendKeeps(s: End, s': End, r: End, q: seq<Message>, b: seq<Message>, sOpened: bool, m: Message)
    requires Inv(s, r, q, b, sOpened)
    requires Usable(s.c) && !s.c.sentClose && (m.Close? && s.confirming ==> r.dead)
    requires Addressed(m, r.c.localId) && (m.Eof? || m.Close?)
    requires s' == s.(c := s.c.(sentClose := m.Close?), h := Note(s.h, m))
    ensures Inv(s', r, q + [m], b, sOpened)
  {
    hide Half, Shaken;
    SendSends(s, s', r, q, b, m);
    PushReceives(s, s', r, q, b, m);
    PushShaken(s, s', r, q, b, sOpened, m);
  }

  /** Reserving moves credit from the window to a chunk. */
  lemma ReserveKeeps(s: End, s': End, r: End, q: seq<Message>, b: seq<Message>, sOpened: bool, chunk: seq<byte>)
    requires Inv(s, r, q, b, sOpened) && Usable(s.c) && |chunk| <= s.c.remoteWin && |chunk| <= CHANNEL_MAX_PACKET
    requires s' == s.(c := s.c.(remoteWin := s.c.remoteWin - |chunk|), h := s.h.(reserved := s.h.reserved + [chunk]))
    ensures Inv(s', r, q, b, sOpened)
  {
    BytesAppend(s.h.reserved, chunk);
  }

  /** Credit reserved on a channel that is shut is lost. */
  lemma LoseKeeps(s: End, s': End, r: End, q: seq<Message>, b: seq<Message>, sOpened: bool, n: u32)
    requires Inv(s, r, q, b, sOpened) && s.c.winClosed && n <= s.c.remoteWin
    requires s' == s.(c := s.c.(remoteWin := s.c.remoteWin - n))
    ensures Inv(s', r, q, b, sOpened)
  {
  }

  /** Encoding moves a reserved chunk to the wire, unless a Close is there to a session that runs. */
  lemma EncodeSends(s: End, s': End, r: End, q: seq<Message>, b: seq<Message>, k: nat, m: Message)
    requires Half(s, r, q, b) && (s.h.closes == 0 || r.dead)
    requires Addressed(m, r.c.localId) && m.Data? && k < |s.h.reserved| && m.data == s.h.reserved[k]
    requires s' == s.(h := Note(s.h.(reserved := Without(s.h.reserved, k)), m))
    ensures Half(s', r, q + [m], b)
  {
    hide Total, Plus, Of;
    PushFacts(q, m);
    NoCloseInside(q);
    BytesWithout(s.h.reserved, k);
    var t := Total(q);
    var before := Arrived(r);
    assert before + (t.data + m.data) == (before + t.data) + m.data;
  }

  lemma EncodeKeeps(s: End, s': End, r: End, q: seq<Message>, b: seq<Message>, sOpened: bool, k: nat, m: Message)
    requires Inv(s, r, q, b, sOpened) && (s.h.closes == 0 || r.dead)
    requires Addressed(m, r.c.localId) && m.Data? && k < |s.h.reserved| && m.data == s.h.reserved[k]
    requires s' == s.(h := Note(s.h.(reserved := Without(s.h.reserved, k)), m))
    ensures Inv(s', r, q + [m], b, sOpened)
  {
    hide Half, Shaken;
    EncodeSends(s, s', r, q, b, k, m);
    PushReceives(s, s', r, q, b, m);
    PushShaken(s, s', r, q, b, sOpened, m);
    BytesWithout(s.h.reserved, k);
  }

  /** Taking bytes out of the buffer. */
  lemma TakeKeeps(s: End, s': End, r: End, q: seq<Message>, b: seq<Message>, sOpened: bool, n: nat)
    requires Inv(s, r, q, b, sOpened) && n <= |s.c.pending|
    requires var taken := s.c.pending[..n];
             s' == s.(c := s.c.(pending := s.c.pending[n..]),
                      h := s.h.(read := s.h.read + taken, owed := s.h.owed + [taken]))
    ensures Inv(s', r, q, b, sOpened)
  {
    var taken, left := s.c.pending[..n], s.c.pending[n..];
    BytesAppend(s.h.owed, taken);
    assert s.c.pending == taken + left;
    Regroup(s.h.read, taken, left);
    assert Arrived(s') == Arrived(s);
    StaysReceived(s, s', r, q, b);
    assert Local(s') && Half(s', r, q, b) by { hide Arrived, Total, Bytes, Addressed; }
    hide Arrived, Total, Bytes, Addressed, Local, Half;
  }

  /** The order of the bytes, and where the Close and the mark are, when the receiver has neither got nor lost
      anything. */
  lemma SameReceived(s: End, s': End, r: End, b: seq<Message>)
    requires Fifo(r, s, b) && CloseOnce(r, s, b) && Marked(r, s, b)
    requires Arrived(s') == Arrived(s) && s'.h.gotMark == s.h.gotMark && s'.h.gotClose == s.h.gotClose
    requires s'.dead == s.dead
    ensures Fifo(r, s', b) && CloseOnce(r, s', b) && Marked(r, s', b)
  {
    hide Total, Arrived;
  }

  /** What the sender relies on when the receiver has only moved bytes. */
  lemma StaysReceived(s: End, s': End, r: End, q: seq<Message>, b: seq<Message>)
    requires Half(r, s, b, q) && Arrived(s') == Arrived(s)
    requires s'.c == s.c.(pending := s'.c.pending) && s'.h == s.h.(read := s'.h.read, owed := s'.h.owed)
    requires s'.dead == s.dead && s'.confirming == s.confirming
    ensures Half(r, s', b, q)
  {
    hide Fifo, CloseOnce, Marked, Total, Addressed;
    SameReceived(s, s', r, b);
  }

  /** A channel after the k-th piece that is owed was given back. */
  function AfterAdjust(s: End, k: nat): End
    requires k < |s.h.owed| && s.c.myWindow + |s.h.owed[k]| < TWO32
  {
    var n := |s.h.owed[k]|;
    var c, h := s.c.(myWindow := s.c.myWindow + n), s.h.(owed := Without(s.h.owed, k));
    if s.c.sentClose then s.(c := c, h := h)
    else s.(c := c, h := Note(h, WindowAdjust(s.c.remoteId, n)))
  }

  /** Giving back changes nothing that the sender relies on but its credit. */
  lemma AdjustReceives(s: End, s': End, r: End, q: seq<Message>, b: seq<Message>, k: nat, n: u32)
    requires Half(r, s, b, q) && k < |s.h.owed| && |s.h.owed[k]| == n && s.c.myWindow + n < TWO32
    requires s' == AfterAdjust(s, k)
    ensures Half(r, s', b, if s.c.sentClose then q else q + [WindowAdjust(s.c.remoteId, n)])
  {
    hide AfterAdjust, Arrived, Fifo, CloseOnce, Marked, Conserved, Addressed;
    AdjustConserves(s, s', r, q, b, k, n);
    AdjustFrame(s, k);
    SameReceived(s, s', r, b);
  }

  lemma AdjustFrame(s: End, k: nat)
    requires k < |s.h.owed| && s.c.myWindow + |s.h.owed[k]| < TWO32
    ensures var s' := AfterAdjust(s, k);
            && Arrived(s') == Arrived(s) && s'.c.localId == s.c.localId && s'.dead == s.dead
            && s'.h.gotMark == s.h.gotMark && s'.h.gotClose == s.h.gotClose
  {
    hide Note, Without;
    var n := |s.h.owed[k]|;
    NoteFrame(s.h.(owed := Without(s.h.owed, k)), WindowAdjust(s.c.remoteId, n));
  }

  /** What recording a message that is sent leaves alone. */
  lemma NoteFrame(h: Hist, m: Message)
    ensures Note(h, m) == h.(sent := Note(h, m).sent, mark := Note(h, m).mark, closes := Note(h, m).closes)
  {
  }

  /** What the reader gives back is what it has added to its window. */
  lemma AdjustConserves(s: End, s': End, r: End, q: seq<Message>, b: seq<Message>, k: nat, n: u32)
    requires Conserved(r, s, b, q) && k < |s.h.owed| && |s.h.owed[k]| == n && s.c.myWindow + n < TWO32
    requires s' == AfterAdjust(s, k)
    ensures Conserved(r, s', b, if s.c.sentClose then q else q + [WindowAdjust(s.c.remoteId, n)])
  {
    hide Total, Plus, Of;
    PushFacts(q, WindowAdjust(s.c.remoteId, n));
  }

  /** The credit goes back to the sender, unless a Close has gone out. */
  lemma AdjustSends(s: End, s': End, r: End, q: seq<Message>, b: seq<Message>, k: nat, n: u32)
    requires Half(s, r, q, b) && k < |s.h.owed| && |s.h.owed[k]| == n && s.c.myWindow + n < TWO32
    requires s' == AfterAdjust(s, k)
    requires s.c.remoteId == r.c.localId && (s.c.sentClose || !r.h.gotClose)
    ensures Half(s', r, if s.c.sentClose then q else q + [WindowAdjust(s.c.remoteId, n)], b)
  {
    hide Total, Plus, Of;
    PushFacts(q, WindowAdjust(s.c.remoteId, n));
    NoCloseInside(q);
    var t := Total(q);
    assert t.data + [] == t.data && t.before + [] == t.before && s.h.sent + [] == s.h.sent;
    hide Arrived;
  }

  lemma AdjustShaken(s: End, s': End, r: End, q: seq<Message>, b: seq<Message>, sOpened: bool, k: nat, n: u32)
    requires Shaken(s, r, q, b, sOpened) && Usable(s.c)
    requires k < |s.h.owed| && |s.h.owed[k]| == n && s.c.myWindow + n < TWO32 && s' == AfterAdjust(s, k)
    ensures Shaken(s', r, if s.c.sentClose then q else q + [WindowAdjust(s.c.remoteId, n)], b, sOpened)
  {
    hide Total, Plus, Of;
    PushFacts(q, WindowAdjust(s.c.remoteId, n));
  }

  lemma AdjustLocal(s: End, s': End, k: nat, n: u32)
    requires Local(s) && k < |s.h.owed| && |s.h.owed[k]| == n && s.c.myWindow + n < TWO32
    requires s' == AfterAdjust(s, k)
    ensures Local(s')
  {
    hide Bytes, Without;
    BytesWithout(s.h.owed, k);
  }

  lemma AdjustKeeps(s: End, s': End, r: End, q: seq<Message>, b: seq<Message>, sOpened: bool, k: nat, n: u32)
    requires Inv(s, r, q, b, sOpened) && Usable(s.c)
    requires k < |s.h.owed| && |s.h.owed[k]| == n && s.c.myWindow + n < TWO32 && s' == AfterAdjust(s, k)
    ensures Inv(s', r, if s.c.sentClose then q else q + [WindowAdjust(s.c.remoteId, n)], b, sOpened)
  {
    hide Half, Shaken, Local;
    Identified(s, r, q, b, sOpened);
    ReadSendsOpen(s, r, q, b);
    AdjustReceives(s, s', r, q, b, k, n);
    AdjustSends(s, s', r, q, b, k, n);
    AdjustShaken(s, s', r, q, b, sOpened, k, n);
    AdjustLocal(s, s', k, n);
  }

  /** A channel whose Close has been handled has sent it. */
  lemma ReadSendsOpen(s: End, r: End, q: seq<Message>, b: seq<Message>)
    requires Half(s, r, q, b)
    ensures s.c.sentClose || !r.h.gotClose
  {
  }

  lemma NoteOne(h: Hist, out: seq<Message>)
    requires |out| <= 1
    ensures NoteAll(h, out) == if out == [] then h else Note(h, out[0])
  {
  }

  /** What an end that is sent to can rely on about its own identifiers. */
  lemma Identified(s: End, r: End, q: seq<Message>, b: seq<Message>, sOpened: bool)
    requires Inv(s, r, q, b, sOpened) && Usable(s.c)
    ensures s.c.remoteId == r.c.localId && s.c.maxRemotePayload == CHANNEL_MAX_PACKET
    ensures Local(s)
  {
  }

  /** `CloseWrite` and `Close` as the sending of one message, or of none. */
  lemma ControlEnd(s: End, op: UserOp)
    requires op.CloseWrite? || op.Close?
    ensures var f := Apply(s.c, op);
            var m := if op.Close? then Message.Close(s.c.remoteId) else Eof(s.c.remoteId);
            var t := if op.CloseWrite? then s.(c := s.c.(sentEOF := true)) else s;
            if s.c.sentClose then f.out == [] && UserStep(s, op) == t
            else f.out == [m] && UserStep(s, op) == t.(c := t.c.(sentClose := m.Close?), h := Note(t.h, m))
  {
    NoteOne(s.h, Apply(s.c, op).out);
    assert s.h.read + [] == s.h.read;
  }

  /** Only `Write` looks at `sentEOF`. */
  lemma EofFlag(s: End, r: End, q: seq<Message>, b: seq<Message>, sOpened: bool)
    requires Inv(s, r, q, b, sOpened)
    ensures Inv(s.(c := s.c.(sentEOF := true)), r, q, b, sOpened)
  {
  }

  lemma ControlStep(s: End, s': End, r: End, q: seq<Message>, b: seq<Message>, sOpened: bool, op: UserOp)
    requires Inv(s, r, q, b, sOpened) && Usable(s.c) && (op.CloseWrite? || op.Close?) && (Stale(s, op) ==> r.dead)
    requires s' == UserStep(s, op)
    ensures Inv(s', r, q + Apply(s.c, op).out, b, sOpened)
  {
    hide Inv, UserStep;
    ControlEnd(s, op);
    Identified(s, r, q, b, sOpened);
    var t := if op.CloseWrite? then s.(c := s.c.(sentEOF := true)) else s;
    EofFlag(s, r, q, b, sOpened);
    if s.c.sentClose {
      assert q + [] == q;
    } else {
      SendKeeps(t, s', r, q, b, sOpened, Apply(s.c, op).out[0]);
    }
  }

  /** Reserving as the taking of a chunk, or of credit that is lost. */
  lemma WriteEnd(s: End, data: seq<byte>)
    ensures var n := Chunk(s.c, data);
            && Apply(s.c, Write(data)).out == []
            && UserStep(s, Write(data)) ==
               s.(c := s.c.(remoteWin := s.c.remoteWin - n),
                  h := if s.c.winClosed then s.h else s.h.(reserved := s.h.reserved + [data[..n]]))
  {
    assert s.h.read + [] == s.h.read;
  }

  lemma WriteStep(s: End, s': End, r: End, q: seq<Message>, b: seq<Message>, sOpened: bool, data: seq<byte>)
    requires Inv(s, r, q, b, sOpened) && Usable(s.c)
    requires s' == UserStep(s, Write(data))
    ensures Inv(s', r, q + Apply(s.c, Write(data)).out, b, sOpened)
  {
    hide Inv, UserStep;
    WriteEnd(s, data);
    Identified(s, r, q, b, sOpened);
    assert q + [] == q;
    if s.c.winClosed {
      LoseKeeps(s, s', r, q, b, sOpened, Chunk(s.c, data));
    } else {
      ReserveKeeps(s, s', r, q, b, sOpened, data[..Chunk(s.c, data)]);
    }
  }

  /** Encoding as the sending of a chunk. */
  lemma EncodeEnd(s: End, k: nat, chunk: seq<byte>)
    ensures var m := Data(s.c.remoteId, |chunk| % TWO32, chunk);
            && Apply(s.c, Encode(k, chunk)).out == [m]
            && UserStep(s, Encode(k, chunk)) == s.(h := Note(s.h.(reserved := Without(s.h.reserved, k)), m))
  {
    NothingMore(s.h.read);
    NoteOne(Stepped(s.h, s.c, Encode(k, chunk)), Apply(s.c, Encode(k, chunk)).out);
  }

  lemma EncodeStep(s: End, s': End, r: End, q: seq<Message>, b: seq<Message>, sOpened: bool, k: nat, chunk: seq<byte>)
    requires Inv(s, r, q, b, sOpened) && MayApply(s.c, s.h, Encode(k, chunk)) && (s.h.closes == 0 || r.dead)
    requires s' == UserStep(s, Encode(k, chunk))
    ensures Inv(s', r, q + Apply(s.c, Encode(k, chunk)).out, b, sOpened)
  {
    EncodeEnd(s, k, chunk);
    Identified(s, r, q, b, sOpened);
    assert chunk in s.h.reserved;
    EncodeKeeps(s, s', r, q, b, sOpened, k, Data(s.c.remoteId, |chunk| % TWO32, chunk));
  }

  /** `Read` as the moving of some bytes, or of none. */
  lemma ReadEnd(s: End, len: nat, s': End)
    requires s' == UserStep(s, Read(len))
    ensures Apply(s.c, Read(len)).out == []
    ensures var n := if len < |s.c.pending| then len else |s.c.pending|;
            var taken := s.c.pending[..n];
            if n == 0 then s' == s
            else s' == s.(c := s.c.(pending := s.c.pending[n..]),
                          h := s.h.(read := s.h.read + taken, owed := s.h.owed + [taken]))
  {
    NothingMore(s.h.read);
  }

  lemma ReadStep(s: End, s': End, r: End, q: seq<Message>, b: seq<Message>, sOpened: bool, len: nat)
    requires Inv(s, r, q, b, sOpened) && s' == UserStep(s, Read(len))
    ensures Inv(s', r, q + Apply(s.c, Read(len)).out, b, sOpened)
  {
    hide Inv, UserStep;
    ReadEnd(s, len, s');
    NothingMore(q);
    var n := if len < |s.c.pending| then len else |s.c.pending|;
    if n > 0 { TakeKeeps(s, s', r, q, b, sOpened, n); }
  }

  /** The adjustment as the giving back of a piece. */
  lemma AdjustEnd(s: End, k: nat, n: u32)
    requires k < |s.h.owed| && |s.h.owed[k]| == n && s.c.myWindow + n < TWO32
    ensures UserStep(s, Adjust(k, n)) == AfterAdjust(s, k)
    ensures Apply(s.c, Adjust(k, n)).out == if s.c.sentClose then [] else [WindowAdjust(s.c.remoteId, n)]
  {
    hide NoteAll, Bytes, AdjustWindow;
    AdjustIs(s.c, n);
    NoteOne(Stepped(s.h, s.c, Adjust(k, n)), Apply(s.c, Adjust(k, n)).out);
    NothingMore(s.h.read);
  }

  /** An adjustment that does not wrap around. */
  lemma AdjustIs(c: Chan, n: u32)
    requires c.myWindow + n < TWO32
    ensures var c' := c.(myWindow := c.myWindow + n);
            n % TWO32 == n
            && AdjustWindow(c, n) ==
               Effect(c', if c.sentClose then [] else [WindowAdjust(c.remoteId, n)], [], c.sentClose)
  {
    assert (c.myWindow + n) % TWO32 == c.myWindow + n;
  }

  /** What is owed fits in the window. */
  lemma OwedFits(s: End, k: nat)
    requires Local(s) && k < |s.h.owed|
    ensures s.c.myWindow + |s.h.owed[k]| <= CHANNEL_WINDOW_SIZE
  {
    BytesWithout(s.h.owed, k);
  }

  lemma AdjustStep(s: End, s': End, r: End, q: seq<Message>, b: seq<Message>, sOpened: bool, k: nat, n: nat)
    requires Inv(s, r, q, b, sOpened) && MayApply(s.c, s.h, Adjust(k, n)) && s' == UserStep(s, Adjust(k, n))
    ensures Inv(s', r, q + Apply(s.c, Adjust(k, n)).out, b, sOpened)
  {
    OwedFits(s, k);
    AdjustEnd(s, k, n);
    NothingMore(q);
    AdjustKeeps(s, s', r, q, b, sOpened, k, n);
    hide Inv, UserStep, Apply;
  }

  /** Every enabled step of a user keeps the invariant, but for one that puts data behind the channel's Close,
      or a Close before the channel's confirmation, on the way to a session that still runs. */
  lemma UserKeeps(s: End, s': End, r: End, q: seq<Message>, b: seq<Message>, sOpened: bool, op: UserOp)
    requires Inv(s, r, q, b, sOpened) && MayApply(s.c, s.h, op) && (Stale(s, op) ==> r.dead)
    requires s' == UserStep(s, op)
    ensures Inv(s', r, q + Apply(s.c, op).out, b, sOpened)
  {
    match op
    case CloseWrite => ControlStep(s, s', r, q, b, sOpened, op);
    case Close => ControlStep(s, s', r, q, b, sOpened, op);
    case Write(data) => WriteStep(s, s', r, q, b, sOpened, data);
    case Encode(k, chunk) => EncodeStep(s, s', r, q, b, sOpened, k, chunk);
    case Read(len) => ReadStep(s, s', r, q, b, sOpened, len);
    case Adjust(k, n) => AdjustStep(s, s', r, q, b, sOpened, k, n);
  }

  /** What a step of a user leaves alone. */
  lemma UserStage(e: End, op: UserOp)
    requires |Apply(e.c, op).out| <= 1
    ensures var e' := UserStep(e, op);
            && e'.h.gotClose == e.h.gotClose && e'.live == e.live && e'.c.winClosed == e.c.winClosed
            && e'.confirming == e.confirming && e'.h.peer == e.h.peer && e'.h.requesting == e.h.requesting
  {
    NoteOne(Stepped(e.h, e.c, op), Apply(e.c, op).out);
  }

  /** What handling a message leaves alone. */
  lemma HandleStage(e: End, m: Message)
    requires Handle(e.c, m).freed.None? && |Handle(e.c, m).out| <= 1
    ensures var e' := HandleStep(e, m);
            && e'.h.gotClose == (e.h.gotClose || m.Close?)
            && e'.live == e.live && e'.c.winClosed == e.c.winClosed
  {
    NoteOne(NoteHandled(e.h, m), Handle(e.c, m).out);
  }

  /** The end of a session's loop keeps the invariant. */
  lemma FailKeeps(s: End, s': End, r: End, q: seq<Message>, b: seq<Message>, sOpened: bool)
    requires Inv(s, r, q, b, sOpened) && s' == FailStep(s) && (s.live || s.c.winClosed) && !s.confirming
    ensures Inv(s', r, q, b, sOpened)
  {
  }

  /** A channel that is about to be confirmed has received nothing, so its window is the initial one. */
  lemma ConfirmIs(s: End, r: End, q: seq<Message>, b: seq<Message>, sOpened: bool)
    requires Inv(s, r, q, b, sOpened) && s.confirming
    ensures !sOpened && Confirm(s.c) == Confirmation(r, s) && (r.dead || s.h.closes == 0) && !r.h.gotClose
  {
    assert Arrived(s) == [];
  }

  lemma ConfirmSends(s: End, s': End, r: End, q: seq<Message>, b: seq<Message>)
    requires Half(s, r, q, b) && s' == ConfirmStep(s) && Confirm(s.c) == Confirmation(r, s)
    requires (r.dead || s.h.closes == 0) && !r.h.gotClose
    ensures Half(s', r, q + [Confirm(s.c)], b)
  {
    hide Total, Plus, Of;
    var m := Confirm(s.c);
    PushFacts(q, m);
    NoCloseInside(q);
    var t := Total(q);
    assert t.data + [] == t.data && t.before + [] == t.before && s.h.sent + [] == s.h.sent;
  }

  lemma ConfirmReceives(s: End, s': End, r: End, q: seq<Message>, b: seq<Message>)
    requires Half(r, s, b, q) && s.confirming && s' == ConfirmStep(s) && Confirm(s.c) == Confirmation(r, s)
    ensures Half(r, s', b, q + [Confirm(s.c)])
  {
    hide Total, Plus, Of, Addressed;
    PushFacts(q, Confirm(s.c));
    assert s.h.sent + [] == s.h.sent;
  }

  lemma ConfirmShaken(s: End, s': End, r: End, q: seq<Message>, b: seq<Message>)
    requires Shaken(s, r, q, b, false) && s.confirming && s' == ConfirmStep(s) && Confirm(s.c) == Confirmation(r, s)
    ensures Shaken(s', r, q + [Confirm(s.c)], b, false)
  {
    hide Total, Plus, Of;
    PushFacts(q, Confirm(s.c));
  }

  /** Encoding the confirmation of a channel keeps the invariant. */
  lemma ConfirmKeeps(s: End, s': End, r: End, q: seq<Message>, b: seq<Message>, sOpened: bool)
    requires Inv(s, r, q, b, sOpened) && s.confirming && s' == ConfirmStep(s)
    ensures Inv(s', r, q + [Confirm(s.c)], b, sOpened)
  {
    hide Half, Shaken;
    ConfirmIs(s, r, q, b, sOpened);
    ConfirmSends(s, s', r, q, b);
    ConfirmReceives(s, s', r, q, b);
    ConfirmShaken(s, s', r, q, b);
  }

  /** Freeing the slot of a channel that has replied to a Close. */
  lemma FreeKeeps(s: End, s': End, r: End, q: seq<Message>, b: seq<Message>, sOpened: bool)
    requires Inv(s, r, q, b, sOpened) && s' == FreeStep(s) && s.h.gotClose && !s.confirming
    ensures Inv(s', r, q, b, sOpened)
  {
  }

  /** Shutting a channel whose slot is free. */
  lemma ShutKeeps(s: End, s': End, r: End, q: seq<Message>, b: seq<Message>, sOpened: bool)
    requires Inv(s, r, q, b, sOpened) && s' == ShutStep(s) && s.h.gotClose && !s.live && !s.c.winClosed
    requires !s.confirming
    ensures Inv(s', r, q, b, sOpened)
  {
  }

  // ---------------------------------------------------------------- handling a message keeps the invariant

  /** What the first message is to the tally of a queue. */
  lemma PopFacts(b: seq<Message>)
    requires b != []
    ensures b == [b[0]] + b[1..]
    ensures var m, t, all := b[0], Total(b[1..]), Total(b);
            && all.data == (if m.Data? then m.data + t.data else t.data)
            && all.adjust == t.adjust + (if m.WindowAdjust? then m.additionalBytes else 0)
            && all.initial == t.initial + (if m.OpenConfirm? then m.windowSize else 0)
            && all.closes == t.closes + (if m.Close? then 1 else 0)
            && all.marked == (m.Eof? || m.Close? || t.marked)
            && all.before == (if m.Eof? || m.Close? then [] else if m.Data? then m.data + t.before else t.before)
  {
    var t := Total(b[1..]);
    assert Total(b) == Plus(Of(b[0]), t);
    hide Total;
    NothingMore(t.data);
    NothingMore(t.before);
  }

  /** A data message in flight is within the window, the payload limit and its own length. */
  lemma DataEnd(s: End, r: End, q: seq<Message>, b: seq<Message>, sOpened: bool)
    requires Inv(s, r, q, b, sOpened) && b != [] && b[0].Data?
    ensures var m := b[0];
            && m.length == |m.data| <= s.c.myWindow
            && Handle(s.c, m) == Quiet(s.c.(myWindow := s.c.myWindow - m.length, pending := s.c.pending + m.data))
            && HandleStep(s, m) == s.(c := Handle(s.c, m).c)
  {
    hide Total, Plus, Of;
    PopFacts(b);
    var m, t := b[0], Total(b[1..]);
    assert Addressed(m, s.c.localId);
    assert |Total(b).data| == |m.data| + |t.data|;
    assert |m.data| <= s.c.myWindow && m.length % TWO32 == m.length;
    hide Inv;
  }

  /** Taking a message off the queue changes nothing about the opening, if it is not the confirmation. */
  lemma PopShaken(s: End, s': End, r: End, q: seq<Message>, b: seq<Message>, sOpened: bool)
    requires Shaken(s, r, q, b, sOpened) && b != [] && !b[0].OpenConfirm?
    requires s'.c == s.c.(pending := s'.c.pending, pendingClosed := s'.c.pendingClosed, myWindow := s'.c.myWindow,
                          remoteWin := s'.c.remoteWin)
    requires s'.h == s.h.(gotMark := s'.h.gotMark)
    requires s'.live == s.live && s'.dead == s.dead && s'.confirming == s.confirming
    ensures Shaken(s', r, q, b[1..], sOpened)
  {
    hide Total, Plus, Of;
    PopFacts(b);
    assert Total(b[1..]).initial == Total(b).initial && forall m | m in b[1..] :: m in b;
    var c, c' := s.c, s'.c;
    assert c'.msg == c.msg && c'.direction == c.direction && c'.localId == c.localId && c'.remoteId == c.remoteId;
    assert c'.maxRemotePayload == c.maxRemotePayload && c'.winClosed == c.winClosed;
    assert Confirmation(s', r) == Confirmation(s, r) && Confirmation(r, s') == Confirmation(r, s);
    hide Confirmation;
  }

  lemma DataReceives(s: End, s': End, r: End, q: seq<Message>, b: seq<Message>)
    requires Half(r, s, b, q) && b != [] && b[0].Data? && b[0].length <= s.c.myWindow
    requires s' == s.(c := s.c.(myWindow := s.c.myWindow - b[0].length, pending := s.c.pending + b[0].data))
    ensures Half(r, s', b[1..], q)
  {
    hide Total, Plus, Of;
    PopFacts(b);
    var m, t := b[0], Total(b[1..]);
    assert Addressed(m, s.c.localId);
    var had := Arrived(s);
    Regroup(s.h.read, s.c.pending, m.data);
    Regroup(had, m.data, t.data);
    Regroup(had, m.data, t.before);
  }

  /** Handling a message that carries no credit changes nothing for the other direction. */
  lemma PopSends(s: End, s': End, r: End, q: seq<Message>, b: seq<Message>)
    requires Half(s, r, q, b) && b != [] && !b[0].WindowAdjust? && !b[0].OpenConfirm?
    requires s'.c.remoteWin == s.c.remoteWin && s'.c.sentClose == s.c.sentClose && s'.dead == s.dead
    requires s'.h == s.h.(gotMark := s'.h.gotMark)
    ensures Half(s', r, q, b[1..])
  {
    hide Total, Plus, Of, Addressed;
    PopFacts(b);
  }

  lemma DataKeeps(s: End, s': End, r: End, q: seq<Message>, b: seq<Message>, sOpened: bool)
    requires Inv(s, r, q, b, sOpened) && b != [] && b[0].Data?
    requires s' == HandleStep(s, b[0])
    ensures Inv(s', r, q, b[1..], sOpened)
  {
    hide Half, Shaken, HandleStep;
    DataEnd(s, r, q, b, sOpened);
    DataReceives(s, s', r, q, b);
    PopSends(s, s', r, q, b);
    PopShaken(s, s', r, q, b, sOpened);
  }

  /** The end that has taken in a Close, its own having gone out. */
  function Told(s: End, m: Message): End {
    s.(h := NoteHandled(s.h, m))
  }

  /** The Close was the last message of its queue. */
  lemma ToldReceives(s: End, s': End, r: End, q: seq<Message>, b: seq<Message>)
    requires Half(r, s, b, q) && b != [] && b[0].Close? && !s.h.gotClose && !s.dead
    requires s' == Told(s, b[0])
    ensures b[1..] == [] && Half(r, s', [], q)
  {
    hide Total, Plus, Of;
    PopFacts(b);
    assert b[1..] == [];
    PlusUnit(Of(b[0]));
  }

  lemma ToldSends(s: End, s': End, r: End, q: seq<Message>, b: seq<Message>)
    requires Half(s, r, q, b) && b != [] && b[0].Close? && s.c.sentClose && r.c.sentClose
    requires b[1..] == [] && s' == Told(s, b[0])
    ensures Half(s', r, q, [])
  {
    hide Total, Plus, Of;
    PopFacts(b);
  }

  lemma ToldShaken(s: End, s': End, r: End, q: seq<Message>, b: seq<Message>, sOpened: bool)
    requires Shaken(s, r, q, b, sOpened) && Usable(s.c) && b != [] && b[0].Close? && b[1..] == [] && s' == Told(s, b[0])
    ensures Shaken(s', r, q, [], sOpened)
  {
    hide Total, Plus, Of;
    PopFacts(b);
  }

  /** Taking in a Close once the own Close has gone out. */
  lemma ToldKeeps(s: End, s': End, r: End, q: seq<Message>, b: seq<Message>, sOpened: bool)
    requires Inv(s, r, q, b, sOpened) && b != [] && b[0].Close? && !s.dead && s.c.sentClose
    requires s' == Told(s, b[0])
    ensures Inv(s', r, q, b[1..], sOpened)
  {
    hide Total, Plus, Of, Half, Shaken;
    CloseIsUsable(s, r, q, b, sOpened);
    PopFacts(b);
    ToldReceives(s, s', r, q, b);
    ToldSends(s, s', r, q, b);
    ToldShaken(s, s', r, q, b, sOpened);
  }

  /** Handling a Close is sending the own one, if none has gone out, and taking the other in. */
  lemma CloseEnd(s: End, m: Message)
    requires m.Close?
    ensures var close := Message.Close(s.c.remoteId);
            if s.c.sentClose then Handle(s.c, m).out == [] && HandleStep(s, m) == Told(s, m)
            else
              && Handle(s.c, m).out == [close]
              && HandleStep(s, m) == Told(s.(c := s.c.(sentClose := true), h := Note(s.h, close)), m)
  {
    NoteOne(NoteHandled(s.h, m), Handle(s.c, m).out);
  }

  /** A Close that is processed is the last message of its queue, and the first one of the sender. */
  lemma LastClose(s: End, r: End, b: seq<Message>)
    requires CloseOnce(r, s, b) && b != [] && b[0].Close? && !s.dead
    ensures b[1..] == [] && r.h.closes == 1 && !s.h.gotClose && Total(b).initial == 0
  {
    PopFacts(b);
    assert b[1..] == [];
    assert Total(b[1..]).initial == 0;
  }

  /** A Close never reaches an opener before the confirmation. */
  lemma CloseIsUsable(s: End, r: End, q: seq<Message>, b: seq<Message>, sOpened: bool)
    requires Inv(s, r, q, b, sOpened) && b != [] && b[0].Close? && !s.dead
    ensures Usable(s.c) && b[1..] == [] && !s.h.gotClose && r.c.sentClose
  {
    hide Total, Conserved, Fifo, Marked, Local, Addressed;
    LastClose(s, r, b);
  }

  /** The reply to a Close keeps the invariant. */
  lemma CloseKeeps(s: End, s': End, r: End, q: seq<Message>, b: seq<Message>, sOpened: bool)
    requires Inv(s, r, q, b, sOpened) && b != [] && b[0].Close? && !s.dead && !s.confirming
    requires s' == HandleStep(s, b[0])
    ensures Inv(s', r, q + Handle(s.c, b[0]).out, b[1..], sOpened)
  {
    CloseEnd(s, b[0]);
    if s.c.sentClose {
      assert q + [] == q;
      ToldKeeps(s, s', r, q, b, sOpened);
    } else {
      CloseIsUsable(s, r, q, b, sOpened);
      Identified(s, r, q, b, sOpened);
      var m := Message.Close(s.c.remoteId);
      var t := s.(c := s.c.(sentClose := true), h := Note(s.h, m));
      SendKeeps(s, t, r, q, b, sOpened, m);
      ToldKeeps(t, s', r, q + [m], b, sOpened);
    }
  }

  lemma EofReceives(s: End, s': End, r: End, q: seq<Message>, b: seq<Message>)
    requires Half(r, s, b, q) && b != [] && b[0].Eof?
    requires s' == s.(c := s.c.(pendingClosed := true), h := s.h.(gotMark := true))
    ensures Half(r, s', b[1..], q)
  {
    hide Total, Plus, Of, Addressed, Marked;
    EofMarks(s, s', r, b);
    PopFacts(b);
  }

  /** What was written before the first Eof or Close has arrived when it is handled. */
  lemma EofMarks(s: End, s': End, r: End, b: seq<Message>)
    requires Marked(r, s, b) && b != [] && b[0].Eof?
    requires s' == s.(c := s.c.(pendingClosed := true), h := s.h.(gotMark := true))
    ensures Marked(r, s', b[1..])
  {
    hide Total, Plus, Of;
    PopFacts(b);
    assert Arrived(s') == Arrived(s);
    assert Arrived(s) + [] == Arrived(s);
    hide Arrived;
  }

  lemma EofKeeps(s: End, s': End, r: End, q: seq<Message>, b: seq<Message>, sOpened: bool)
    requires Inv(s, r, q, b, sOpened) && b != [] && b[0].Eof?
    requires s' == HandleStep(s, b[0])
    ensures Inv(s', r, q, b[1..], sOpened)
  {
    hide Half, Shaken;
    EofReceives(s, s', r, q, b);
    PopSends(s, s', r, q, b);
    PopShaken(s, s', r, q, b, sOpened);
  }

  /** Credit in flight never overflows the window it is added to. */
  lemma CreditEnd(s: End, r: End, q: seq<Message>, b: seq<Message>, sOpened: bool)
    requires Inv(s, r, q, b, sOpened) && b != [] && (b[0].WindowAdjust? || b[0].OpenConfirm?)
    ensures var n := if b[0].WindowAdjust? then b[0].additionalBytes else b[0].windowSize;
            && s.c.remoteWin + n < TWO32
            && Handle(s.c, b[0]).err.None? && Handle(s.c, b[0]).out == []
            && HandleStep(s, b[0]) ==
               s.(c := if b[0].WindowAdjust? then s.c.(remoteWin := s.c.remoteWin + n)
                       else s.c.(remoteId := b[0].senderId, maxRemotePayload := b[0].maxPacketSize,
                                 remoteWin := s.c.remoteWin + n, msg := s.c.msg + [b[0]]))
  {
    hide Total, Plus, Of;
    PopFacts(b);
    var n := if b[0].WindowAdjust? then b[0].additionalBytes else b[0].windowSize;
    CreditFits(s, r, q, b, n);
    if b[0].OpenConfirm? { Confirmed(s, r, q, b, sOpened); }
    hide Inv;
    CreditTaken(s, b[0], n);
    hide Addressed;
  }

  lemma CreditTaken(s: End, m: Message, n: u32)
    requires if m.WindowAdjust? then n == m.additionalBytes else m.OpenConfirm? && n == m.windowSize
    requires s.c.remoteWin + n < TWO32
    requires m.OpenConfirm? ==> s.c.direction.Outbound? && m.maxPacketSize == CHANNEL_MAX_PACKET
    ensures Handle(s.c, m).err.None? && Handle(s.c, m).out == []
    ensures HandleStep(s, m) ==
            s.(c := if m.WindowAdjust? then s.c.(remoteWin := s.c.remoteWin + n)
                    else s.c.(remoteId := m.senderId, maxRemotePayload := m.maxPacketSize,
                              remoteWin := s.c.remoteWin + n, msg := s.c.msg + [m]))
  {
    Credit.AddExact(s.c.remoteWin, n);
  }

  /** Only an opener is sent a confirmation, and it names a good packet size. */
  lemma Confirmed(s: End, r: End, q: seq<Message>, b: seq<Message>, sOpened: bool)
    requires Shaken(s, r, q, b, sOpened) && b != [] && b[0].OpenConfirm?
    ensures s.c.direction.Outbound? && b[0].maxPacketSize == CHANNEL_MAX_PACKET
  {
    hide Total;
    assert b[0] in b;
  }

  lemma CreditFits(s: End, r: End, q: seq<Message>, b: seq<Message>, n: u32)
    requires Half(s, r, q, b) && n <= Total(b).adjust + Total(b).initial && Local(r)
    ensures s.c.remoteWin + n <= CHANNEL_WINDOW_SIZE
  {
    hide Total, Addressed;
  }

  lemma CreditSends(s: End, s': End, r: End, q: seq<Message>, b: seq<Message>, n: u32)
    requires Half(s, r, q, b) && b != [] && s.c.remoteWin + n < TWO32
    requires if b[0].WindowAdjust? then n == b[0].additionalBytes else b[0].OpenConfirm? && n == b[0].windowSize
    requires s'.c.remoteWin == s.c.remoteWin + n && s'.c.sentClose == s.c.sentClose && s'.dead == s.dead && s'.h == s.h
    ensures Half(s', r, q, b[1..])
  {
    hide Total, Plus, Of, Addressed;
    PopFacts(b);
  }

  lemma CreditReceives(s: End, s': End, r: End, q: seq<Message>, b: seq<Message>)
    requires Half(r, s, b, q) && b != [] && (b[0].WindowAdjust? || b[0].OpenConfirm?)
    requires s'.c.pending == s.c.pending && s'.c.myWindow == s.c.myWindow && s'.c.localId == s.c.localId
    requires s'.c.sentClose == s.c.sentClose && s'.h == s.h && s'.dead == s.dead && s'.confirming == s.confirming
    ensures Half(r, s', b[1..], q)
  {
    hide Total, Plus, Of, Addressed;
    PopFacts(b);
  }

  lemma ConfirmedShaken(s: End, s': End, r: End, q: seq<Message>, b: seq<Message>, sOpened: bool)
    requires Shaken(s, r, q, b, sOpened) && b != [] && b[0].OpenConfirm? && b[0].windowSize == CHANNEL_WINDOW_SIZE
    requires s'.c == s.c.(remoteId := b[0].senderId, maxRemotePayload := b[0].maxPacketSize,
                          remoteWin := s'.c.remoteWin, msg := s.c.msg + [b[0]])
    requires s' == s.(c := s'.c)
    ensures Shaken(s', r, q, b[1..], sOpened)
  {
    hide Total, Plus, Of;
    PopFacts(b);
    assert forall m | m in b[1..] :: m in b;
    assert Total(b).initial == Total(b[1..]).initial + CHANNEL_WINDOW_SIZE;
    if s.c.msg == [] && sOpened { NoInitialInside(b[1..]); }
  }

  lemma CreditKeeps(s: End, s': End, r: End, q: seq<Message>, b: seq<Message>, sOpened: bool)
    requires Inv(s, r, q, b, sOpened) && b != [] && (b[0].WindowAdjust? || b[0].OpenConfirm?)
    requires s' == HandleStep(s, b[0])
    ensures Handle(s.c, b[0]).err.None? && Handle(s.c, b[0]).out == []
    ensures Inv(s', r, q, b[1..], sOpened)
  {
    CreditEnd(s, r, q, b, sOpened);
    assert Addressed(b[0], s.c.localId);
    CreditSends(s, s', r, q, b, if b[0].WindowAdjust? then b[0].additionalBytes else b[0].windowSize);
    CreditReceives(s, s', r, q, b);
    if b[0].OpenConfirm? {
      ConfirmedShaken(s, s', r, q, b, sOpened);
    } else {
      PopShaken(s, s', r, q, b, sOpened);
    }
    hide Half, Shaken, HandleStep, Handle;
  }

  /** Which handlers free a slot, close, or fail. */
  lemma HandleKinds(c: Chan, m: Message)
    ensures var h := Handle(c, m);
            && (h.freed.Some? ==> m.OpenFailure?) && (h.closing <==> m.Close?)
            && (m.Close? || m.Eof? ==> h.err.None?)
            && (m.Eof? ==> h.out == [])
  {
  }

  /** The next message to an end whose session still runs is handled without an error, and handling
      it keeps the invariant. */
  lemma HandleKeeps(s: End, s': End, r: End, q: seq<Message>, b: seq<Message>, sOpened: bool)
    requires Inv(s, r, q, b, sOpened) && b != [] && !s.dead && !s.confirming
    requires s' == HandleStep(s, b[0])
    ensures var h := Handle(s.c, b[0]);
            && h.err.None?
            && h.freed.None? && h.closing == b[0].Close?
            && Inv(s', r, q + h.out, b[1..], sOpened)
  {
    assert Addressed(b[0], s.c.localId);
    HandleKinds(s.c, b[0]);
    NothingMore(q);
    hide Inv, Handle, HandleStep;
    match b[0]
    case Data(_, _, _) =>
      DataEnd(s, r, q, b, sOpened);
      DataKeeps(s, s', r, q, b, sOpened);
    case Close(_) => CloseKeeps(s, s', r, q, b, sOpened);
    case Eof(_) => EofKeeps(s, s', r, q, b, sOpened);
    case _ => CreditKeeps(s, s', r, q, b, sOpened);
  }

  /** Sending the request of a channel. */
  lemma RequestKeeps(x: End, x': End, q: seq<Message>)
    requires Opening(x, q) && x.h.requesting && x' == x.(h := x.h.(requesting := false))
    ensures Opening(x', q + [OpenRequest(x.c)])
  {
    NothingMore([OpenRequest(x.c)]);
  }

  /** How an opening goes on: there is one confirmation, about to be encoded or in flight, until the opener has
      it. */
  lemma Answers(x: End, y: End, fwd: seq<Message>, back: seq<Message>)
    requires Inv(x, y, fwd, back, true)
    ensures !x.h.requesting && y.c.remoteId == x.c.localId
    ensures (forall m | m in fwd :: !m.Open?) && (forall m | m in back :: !m.OpenFailure?)
    ensures Confirms(back) + (if y.confirming then 1 else 0) == (if x.c.msg == [] then 1 else 0)
    ensures if x.c.msg == [] then fwd == [] else x.c.msg == [Confirmation(x, y)] && x.c.remoteId == y.c.localId
  {
    assert forall m | m in back :: Addressed(m, x.c.localId);
    assert forall m | m in fwd :: Addressed(m, y.c.localId);
    ConfirmsBring(back);
    hide Total, Half, Local;
  }

  /** Accepting an open request makes a link out of an opening. */
  lemma AcceptKeeps(x: End, x': End, y: End, q: seq<Message>, id: u32, opener: nat, acceptor: nat)
    requires Opening(x, q) && q != []
    requires x' == x.(h := x.h.(peer := Some(acceptor)))
    requires y == Accepted(q[0], id, opener)
    ensures Inv(x', y, [], [], true)
  {
  }

  /** An opener whose session's loop ends, before or after its request is handled. */
  lemma OpeningFails(x: End, x': End, q: seq<Message>)
    requires Opening(x, q) && x' == FailStep(x)
    ensures Opening(x', q)
  {
  }
}
