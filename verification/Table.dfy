/** The slot table of a session as a value: the pure part of `chanList` in golang/mux/util.go. */
module Table {
  import opened Wrappers
  import opened Wire

  /** The slot `add` picks: the least free one, or one past the end. */
  function FirstFree<T>(t: seq<Option<T>>): (k: nat)
    ensures k <= |t|
    ensures forall i | 0 <= i < k :: t[i].Some?
    ensures k < |t| ==> t[k].None?
  {
    if t == [] || t[0].None? then 0 else 1 + FirstFree(t[1..])
  }

  function Put<T>(t: seq<Option<T>>, x: T): seq<Option<T>> {
    var k := FirstFree(t);
    if k < |t| then t[k := Some(x)] else t + [Some(x)]
  }

  /** `getChan`: the bound of the lookup is the length truncated to 32 bits. */
  function Get<T>(t: seq<Option<T>>, id: u32): Option<T> {
    if id < |t| % TWO32 then t[id] else None
  }

  function Remove<T>(t: seq<Option<T>>, id: u32): seq<Option<T>> {
    if id < |t| % TWO32 then t[id := None] else t
  }

  /** The entries in use, in slot order. */
  function Listed<T>(t: seq<Option<T>>): seq<T> {
    if t == [] then []
    else (match t[0] case None => [] case Some(x) => [x]) + Listed(t[1..])
  }

  lemma {:induction false} ListedAppend<T>(t: seq<Option<T>>, e: Option<T>)
    ensures Listed(t + [e]) == Listed(t) + match e case None => [] case Some(x) => [x]
  {
    if t == [] {
      assert t + [e] == [e];
      assert Listed([e]) == (match e case None => [] case Some(x) => [x]) + Listed([]);
    } else {
      assert (t + [e])[0] == t[0] && (t + [e])[1..] == t[1..] + [e];
      ListedAppend(t[1..], e);
    }
  }

  lemma {:induction false} ListedHas<T>(t: seq<Option<T>>)
    ensures forall x :: x in Listed(t) <==> Some(x) in t
  {
    if t != [] {
      ListedHas(t[1..]);
      assert t == [t[0]] + t[1..];
    }
  }

  // ---------------------------------------------------------------- how large the table gets

  function Used<T>(t: seq<Option<T>>): nat {
    |Listed(t)|
  }

  datatype Op<T> = Add(x: T) | Del(id: u32)

  function Act<T>(t: seq<Option<T>>, op: Op<T>): seq<Option<T>> {
    match op
    case Add(x) => Put(t, x)
    case Del(id) => Remove(t, id)
  }

  function Run<T>(t: seq<Option<T>>, ops: seq<Op<T>>): seq<Option<T>>
    decreases |ops|
  {
    if ops == [] then t else Run(Act(t, ops[0]), ops[1..])
  }

  /** The largest number of slots in use at any moment of a run, or `peak` if that is more. */
  function Peak<T>(t: seq<Option<T>>, ops: seq<Op<T>>, peak: nat): nat
    decreases |ops|
  {
    var most := if Used(t) > peak then Used(t) else peak;
    if ops == [] then most else Peak(Act(t, ops[0]), ops[1..], most)
  }

  lemma {:induction false} UsedSet<T>(t: seq<Option<T>>, k: nat, e: Option<T>)
    requires k < |t|
    ensures Used(t[k := e]) == Used(t) + (if e.Some? then 1 else 0) - (if t[k].Some? then 1 else 0)
  {
    if k == 0 {
      assert t[k := e][1..] == t[1..];
    } else {
      assert t[k := e][1..] == t[1..][k - 1 := e];
      UsedSet(t[1..], k - 1, e);
    }
  }

  lemma {:induction false} UsedBound<T>(t: seq<Option<T>>)
    ensures Used(t) <= |t|
    ensures (forall i | 0 <= i < |t| :: t[i].Some?) ==> Used(t) == |t|
  {
    if t != [] {
      UsedBound(t[1..]);
      assert forall i | 0 <= i < |t| - 1 :: t[1..][i] == t[i + 1];
    }
  }

  /** `add` takes the least free slot, makes no gap, and disturbs no other slot. */
  lemma PutExact<T>(t: seq<Option<T>>, x: T)
    ensures var k, t' := FirstFree(t), Put(t, x);
            && (forall i | 0 <= i < k :: t[i].Some?)
            && k < |t'| && t'[k] == Some(x)
            && (forall i | 0 <= i < |t| && i != k :: t'[i] == t[i])
            && |t'| == (if k < |t| then |t| else |t| + 1)
            && Used(t') == Used(t) + 1
  {
    var k := FirstFree(t);
    if k < |t| { UsedSet(t, k, Some(x)); } else { ListedAppend(t, Some(x)); }
  }

  /** What is looked up: an entry under the number that `add` gave it, nothing under a number that was
      removed, and under every other number what was there before. */
  lemma Lookups<T>(t: seq<Option<T>>, x: T, id: u32, other: u32)
    requires |t| < TWO32 - 1
    ensures var k := FirstFree(t);
            Get(Put(t, x), k) == Some(x) && (other != k ==> Get(Put(t, x), other) == Get(t, other))
    ensures Get(Remove(t, id), id) == None && (other != id ==> Get(Remove(t, id), other) == Get(t, other))
  {
    PutExact(t, x);
    Small(t);
    Small(Put(t, x));
    Small(Remove(t, id));
    hide Put, FirstFree;
  }

  lemma Small<T>(t: seq<Option<T>>)
    requires |t| < TWO32
    ensures |t| % TWO32 == |t|
  {
  }

  /** The table never holds more slots than were in use at once: started from an empty table, its length
      is the peak number of entries. */
  lemma {:induction false} LengthIsPeak<T>(t: seq<Option<T>>, ops: seq<Op<T>>)
    ensures Peak(t, ops, |t|) == |Run(t, ops)|
    decreases |ops|
  {
    UsedBound(t);
    if ops != [] {
      var t' := Act(t, ops[0]);
      match ops[0] {
        case Add(x) => PutExact(t, x);
        case Del(id) =>
      }
      UsedBound(t');
      if |t'| > |t| {
        UsedBound(t);
        PeakFrom(t', ops[1..], |t|);
      }
      LengthIsPeak(t', ops[1..]);
    }
  }

  lemma PeakFrom<T>(t: seq<Option<T>>, ops: seq<Op<T>>, peak: nat)
    requires Used(t) >= peak
    ensures Peak(t, ops, peak) == Peak(t, ops, Used(t))
  {
  }
}
