/** A Go session talking to the TypeScript decoder. */
module Interop {
  import opened Wire
  import opened Network
  import opened Promises
  import Runs
  import Trace
  import TsDecoder

  /**
   All that a Go session has put on its wire, in any clean run with writes shorter than 2^32 bytes, is decoded
   by the TypeScript decoder however the transport cuts it: `Write` never sends an empty payload, so no read
   of length 0 can swallow what follows. On an open socket a decoder that has received it all and has come
   to rest has decoded every message.
   */
  lemma GoWireIsChunkSafe(ts: seq<Turn>, who: Who, es: seq<TsDecoder.Event>)
    requires Runs.Legal(ts) && Runs.Clean(ts) && ShortWrites(ts)
    requires TsDecoder.Received(es) == EncodeAll(Messages(Trace.OnWire(ts, who)))
    ensures var ms := Messages(Trace.OnWire(ts, who));
            var d := TsDecoder.Run(TsDecoder.START, es);
            && !TsDecoder.Failed(d) && d.out <= ms
            && (TsDecoder.SocketOpen(es) && TsDecoder.Idle(d) ==> d.out == ms)
  {
    var ms := Messages(Trace.OnWire(ts, who));
    AllReadable(ts, who);
    WritesAreNotEmpty(ts, who);
    assert forall i | 0 <= i < |ms| :: ms[i] in ms;
    assert TsDecoder.NoEmptyDataInside(ms);
    assert TsDecoder.Received(es) + [] == EncodeAll(ms);
    TsDecoder.ChunkIndependence(es, ms, []);
    if TsDecoder.SocketOpen(es) {
      TsDecoder.IndependentIff(ms);
      assert TsDecoder.YieldsAll(es, ms);
    }
  }
}
