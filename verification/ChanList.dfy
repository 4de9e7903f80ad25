/** The slot table of golang/mux/util.go as an object. */
module ChanList {
  import opened Wrappers
  import opened Wire
  import Table

  class ChanList<T> {
    var chans: seq<Option<T>>

    constructor ()
      ensures chans == []
    {
      chans := [];
    }

    /** The identifier is the slot, as long as slots are numbered with 32 bits. */
    method Add(ch: T) returns (id: u32)
      modifies this
      ensures chans == Table.Put(old(chans), ch)
      ensures id == Table.FirstFree(old(chans)) % TWO32
      ensures Table.FirstFree(old(chans)) < TWO32 ==> id < |chans| && chans[id] == Some(ch)
    {
      for i := 0 to |chans|
        invariant chans == old(chans)
        invariant forall j | 0 <= j < i :: chans[j].Some?
      {
        if chans[i].None? {
          FirstFreeIs(chans, i);
          chans := chans[i := Some(ch)];
          return i % TWO32;
        }
      }
      FirstFreeIs(chans, |chans|);
      chans := chans + [Some(ch)];
      return (|chans| - 1) % TWO32;
    }

    /** The least free slot is what `FirstFree` computes. */
    static lemma FirstFreeIs(t: seq<Option<T>>, k: nat)
      requires k <= |t| && (forall i | 0 <= i < k :: t[i].Some?) && (k < |t| ==> t[k].None?)
      ensures Table.FirstFree(t) == k
    {
    }

    method GetChan(id: u32) returns (ch: Option<T>)
      ensures ch == Table.Get(chans, id)
      ensures |chans| < TWO32 ==> ch == if id < |chans| then chans[id] else None
    {
      if id < |chans| % TWO32 {
        return chans[id];
      }
      return None;
    }

    method Remove(id: u32)
      modifies this
      ensures chans == Table.Remove(old(chans), id)
      ensures |chans| == |old(chans)| && forall i | 0 <= i < |chans| && i != id :: chans[i] == old(chans)[i]
      ensures id < |chans| < TWO32 ==> chans[id] == None
    {
      if id < |chans| % TWO32 {
        chans := chans[id := None];
      }
    }

    /** Forget every entry, and return them in slot order. */
    method DropAll() returns (r: seq<T>)
      modifies this
      ensures r == Table.Listed(old(chans)) && chans == []
    {
      r := [];
      for i := 0 to |chans|
        invariant chans == old(chans)
        invariant r == Table.Listed(chans[..i])
      {
        assert chans[..i + 1] == chans[..i] + [chans[i]];
        Table.ListedAppend(chans[..i], chans[i]);
        match chans[i] {
          case None =>
          case Some(ch) => r := r + [ch];
        }
      }
      assert chans[..|chans|] == chans;
      chans := [];
    }
  }
}
