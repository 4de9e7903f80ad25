/** Flow-control arithmetic on 32-bit credits: the pure part of golang/mux/util.go. */
module Credit {
  import opened Wrappers
  import opened Wire

  /** `min`: the second argument is truncated to 32 bits before the comparison. */
  function Min(a: u32, len: nat): (r: u32)
    ensures r <= a && r <= len % 0x1_0000_0000 && (r == a || r == len % 0x1_0000_0000)
  {
    var b := len % TWO32;
    if a < b then a else b
  }

  /** `window.add`: the new credit, or nothing when the 32-bit sum wraps around. */
  function Add(win: u32, n: u32): Option<u32> {
    if n == 0 then Some(win)
    else
      var sum := (win + n) % TWO32;
      if sum < n then None else Some(sum)
  }

  /** `window.reserve` once it does not wait: what it grants of the request. */
  function Grant(win: u32, n: u32): (r: u32)
    ensures r <= win && r <= n && (r == win || r == n)
  {
    if win < n then win else n
  }

  /** The wrap-around test refuses exactly the additions whose true sum does not fit in 32 bits. */
  lemma AddExact(win: u32, n: u32)
    ensures Add(win, n) == if win + n < TWO32 then Some(win + n) else None
  {
    if win + n >= TWO32 {
      assert (win + n) % TWO32 == win + n - TWO32;
    }
  }

  // ---------------------------------------------------------------- a shared window

  datatype Win = Win(win: u32, closed: bool)

  /** What a critical section of another goroutine does to a window. */
  datatype Event = Credit(n: u32) | Take(n: u32) | Shut

  function Act(w: Win, e: Event): Win {
    match e
    case Credit(n) => (match Add(w.win, n) case None => w case Some(win) => w.(win := win))
    case Take(n) => if w.win == 0 && !w.closed then w else w.(win := w.win - Grant(w.win, n))
    case Shut => w.(closed := true)
  }

  /** An addition is all or nothing, a reservation takes all it can, and a close stays. */
  lemma ActIs(w: Win, e: Event)
    ensures Act(w, e).closed == (w.closed || e.Shut?)
    ensures e.Credit? ==> Act(w, e).win == w.win + if w.win + e.n < 0x1_0000_0000 then e.n else 0
    ensures e.Take? ==> Act(w, e).win == if e.n < w.win then w.win - e.n else 0
    ensures e.Shut? ==> Act(w, e).win == w.win
  {
    if e.Credit? { AddExact(w.win, e.n); }
  }

  function After(w: Win, es: seq<Event>): Win
    decreases |es|
  {
    if es == [] then w else After(Act(w, es[0]), es[1..])
  }

  /**
   How a caller of `reserve` waits. It looks at the window; while there is neither credit nor a close it
   waits, and each time it is woken some events of other goroutines have passed. When the lists of events
   run out it is still waiting. `passed` are the events that have happened meanwhile.
   */
  datatype Wait = Wait(w: Win, passed: seq<Event>, rest: seq<seq<Event>>, waiting: bool)

  function Await(w: Win, env: seq<seq<Event>>): (r: Wait)
    ensures r.waiting <==> r.w.win == 0 && !r.w.closed
    ensures |r.rest| <= |env|
    decreases |env|
  {
    if w.win > 0 || w.closed then Wait(w, [], env, false)
    else if env == [] then Wait(w, [], [], true)
    else
      var r := Await(After(w, env[0]), env[1..]);
      r.(passed := env[0] + r.passed)
  }

  // ---------------------------------------------------------------- accounting

  /** Credit accepted and credit granted by one event. */
  function Accepted(w: Win, e: Event): nat {
    if e.Credit? && Add(w.win, e.n).Some? then e.n else 0
  }

  function Granted(w: Win, e: Event): nat {
    if e.Take? && (w.win > 0 || w.closed) then Grant(w.win, e.n) else 0
  }

  function TotalAccepted(w: Win, es: seq<Event>): nat
    decreases |es|
  {
    if es == [] then 0 else Accepted(w, es[0]) + TotalAccepted(Act(w, es[0]), es[1..])
  }

  function TotalGranted(w: Win, es: seq<Event>): nat
    decreases |es|
  {
    if es == [] then 0 else Granted(w, es[0]) + TotalGranted(Act(w, es[0]), es[1..])
  }

  /** Whatever any number of writers and adders do in whatever order, the credit accepted is the credit
      granted plus the credit left; nothing is lost to wrap-around. */
  lemma {:induction false} CreditAccounts(w: Win, es: seq<Event>)
    ensures w.win + TotalAccepted(w, es) == TotalGranted(w, es) + After(w, es).win
    decreases |es|
  {
    if es != [] {
      if es[0].Credit? { AddExact(w.win, es[0].n); }
      CreditAccounts(Act(w, es[0]), es[1..]);
    }
  }

  /** Events one after the other. */
  lemma {:induction false} AfterAppend(w: Win, a: seq<Event>, b: seq<Event>)
    ensures After(w, a + b) == After(After(w, a), b)
    ensures TotalAccepted(w, a + b) == TotalAccepted(w, a) + TotalAccepted(After(w, a), b)
    ensures TotalGranted(w, a + b) == TotalGranted(w, a) + TotalGranted(After(w, a), b)
    decreases |a|
  {
    if a == [] {
      assert a + b == b;
    } else {
      assert (a + b)[0] == a[0] && (a + b)[1..] == a[1..] + b;
      AfterAppend(Act(w, a[0]), a[1..], b);
    }
  }

  /** The window a caller finds is the one the events that passed have made. */
  lemma {:induction false} AwaitPasses(w: Win, env: seq<seq<Event>>)
    ensures Await(w, env).w == After(w, Await(w, env).passed)
    decreases |env|
  {
    if w.win == 0 && !w.closed && env != [] {
      var r := Await(After(w, env[0]), env[1..]);
      AwaitPasses(After(w, env[0]), env[1..]);
      AfterAppend(w, env[0], r.passed);
    }
  }

  /** The events of some lists, one list after the other. */
  function Joined(env: seq<seq<Event>>): seq<Event>
    decreases |env|
  {
    if env == [] then [] else env[0] + Joined(env[1..])
  }

  /** The events of the first list, and then those of the next ones. */
  lemma JoinedFirst(w: Win, env: seq<seq<Event>>, j: nat)
    requires 0 < j <= |env|
    ensures Joined(env[..j]) == env[0] + Joined(env[1..][..j - 1])
    ensures After(w, Joined(env[..j])) == After(After(w, env[0]), Joined(env[1..][..j - 1]))
  {
    assert env[..j][1..] == env[1..][..j - 1];
    AfterAppend(w, env[0], Joined(env[1..][..j - 1]));
  }

  /** A caller waits no longer than it has to: k lists of events pass, at each look before there was neither
      credit nor a close, and it goes on waiting only when there are no more. */
  lemma {:induction false} AwaitStops(w: Win, env: seq<seq<Event>>) returns (k: nat)
    ensures var r := Await(w, env);
            && k <= |env| && r.rest == env[k..] && r.passed == Joined(env[..k])
            && (r.waiting ==> k == |env|)
            && r.w == After(w, Joined(env[..k]))
    ensures forall j: nat | j < k :: After(w, Joined(env[..j])).win == 0 && !After(w, Joined(env[..j])).closed
    ensures var v := After(w, Joined(env[..k])); k < |env| ==> v.win > 0 || v.closed
    decreases |env|
  {
    assert After(w, Joined(env[..0])) == w;
    hide After, Joined;
    k := 0;
    if w.win == 0 && !w.closed && env != [] {
      var k' := AwaitStops(After(w, env[0]), env[1..]);
      k := k' + 1;
      forall j: nat | 0 < j <= k
        ensures After(w, Joined(env[..j])) == After(After(w, env[0]), Joined(env[1..][..j - 1]))
        ensures Joined(env[..j]) == env[0] + Joined(env[1..][..j - 1])
      {
        JoinedFirst(w, env, j);
      }
    } else {
      JoinedNone(env);
    }
  }

  lemma JoinedNone(env: seq<seq<Event>>)
    ensures Joined(env[..0]) == [] && env[0..] == env
  {
  }

  lemma One(w: Win, e: Event)
    ensures After(w, [e]) == Act(w, e)
    ensures TotalAccepted(w, [e]) == Accepted(w, e) && TotalGranted(w, [e]) == Granted(w, e)
  {
    assert [e][1..] == [];
  }

  /** A wait that has come to window w after some events, with more to come. */
  ghost predicate Proceeds(target: Wait, passed: seq<Event>, w: Win, rest: seq<seq<Event>>) {
    var r := Await(w, rest);
    target == r.(passed := passed + r.passed)
  }

  lemma ProceedsOn(target: Wait, passed: seq<Event>, w: Win, rest: seq<seq<Event>>)
    requires Proceeds(target, passed, w, rest) && w.win == 0 && !w.closed && rest != []
    ensures Proceeds(target, passed + rest[0], After(w, rest[0]), rest[1..])
  {
    var r := Await(After(w, rest[0]), rest[1..]);
    assert passed + (rest[0] + r.passed) == (passed + rest[0]) + r.passed;
  }
}
