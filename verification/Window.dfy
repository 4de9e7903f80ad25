/** The credit counter of golang/mux/util.go as an object. */
module Window {
  import opened Wire
  import Credit

  /** `added` and `granted` are what the additions and reservations of the past amount to. */
  class Window {
    var win: u32
    var writeWaiters: nat
    var closed: bool
    ghost var added: nat
    ghost var granted: nat

    ghost predicate Valid()
      reads this
    {
      added == granted + win
    }

    ghost function Model(): Credit.Win
      reads this
    {
      Credit.Win(win, closed)
    }

    constructor ()
      ensures Valid() && win == 0 && !closed && writeWaiters == 0 && added == 0
    {
      win, writeWaiters, closed := 0, 0, false;
      added, granted := 0, 0;
    }

    /** Refuses exactly when the true sum does not fit in 32 bits. */
    method Add(n: u32) returns (ok: bool)
      requires Valid()
      modifies this
      ensures Valid() && writeWaiters == old(writeWaiters)
      ensures ok <==> old(win) + n < TWO32
      ensures win == (if ok then old(win) + n else old(win)) && closed == old(closed)
      ensures Model() == Credit.Act(old(Model()), Credit.Event.Credit(n))
      ensures added == old(added) + (if ok then n else 0) && granted == old(granted)
    {
      Credit.AddExact(win, n);
      if n == 0 {
        return true;
      }
      if (win + n) % TWO32 < n {
        return false;
      }
      win := (win + n) % TWO32;
      added := added + n;
      return true;
    }

    method Close()
      requires Valid()
      modifies this
      ensures Valid() && writeWaiters == old(writeWaiters) && closed && win == old(win)
      ensures Model() == Credit.Act(old(Model()), Credit.Event.Shut)
      ensures added == old(added) && granted == old(granted)
    {
      closed := true;
    }

    /** What another goroutine's critical section does while this one does not hold the lock. */
    method Other(e: Credit.Event)
      requires Valid()
      modifies this
      ensures Valid() && writeWaiters == old(writeWaiters)
      ensures Model() == Credit.Act(old(Model()), e)
      ensures added == old(added) + Credit.Accepted(old(Model()), e)
      ensures granted == old(granted) + Credit.Granted(old(Model()), e)
    {
      match e
      case Credit(n) =>
        Credit.AddExact(win, n);
        var _ := Add(n);
      case Shut => Close();
      case Take(n) =>
        if win > 0 || closed {
          granted := granted + Credit.Grant(win, n);
          win := win - Credit.Grant(win, n);
        }
    }

    /** What other goroutines do between two looks at the window. */
    method Others(es: seq<Credit.Event>)
      requires Valid()
      modifies this
      ensures Valid() && writeWaiters == old(writeWaiters)
      ensures Model() == Credit.After(old(Model()), es)
      ensures added == old(added) + Credit.TotalAccepted(old(Model()), es)
      ensures granted == old(granted) + Credit.TotalGranted(old(Model()), es)
    {
      for i := 0 to |es|
        invariant Valid() && writeWaiters == old(writeWaiters)
        invariant Model() == Credit.After(old(Model()), es[..i])
        invariant added == old(added) + Credit.TotalAccepted(old(Model()), es[..i])
        invariant granted == old(granted) + Credit.TotalGranted(old(Model()), es[..i])
      {
        Credit.AfterAppend(old(Model()), es[..i], [es[i]]);
        assert es[..i + 1] == es[..i] + [es[i]];
        Credit.One(Model(), es[i]);
        Other(es[i]);
      }
      assert es[..|es|] == es;
    }

    /**
     Waits until there is credit or the window is closed, then takes what it can of the request.
     `env` is what other goroutines do each time this one waits; when it runs out the caller is still
     waiting.
     */
    method Reserve(n: u32, env: seq<seq<Credit.Event>>)
      returns (got: u32, eof: bool, rest: seq<seq<Credit.Event>>, waiting: bool)
      requires Valid()
      modifies this
      ensures Valid()
      ensures var w := Credit.Await(old(Model()), env);
              && rest == w.rest && waiting == w.waiting
              && w.w == Credit.After(old(Model()), w.passed)
              && (waiting ==> got == 0 && !eof && Model() == w.w && writeWaiters == old(writeWaiters) + 1)
              && (!waiting ==>
                    && got <= n && got <= w.w.win && (got == n || got == w.w.win)
                    && eof == w.w.closed && win == w.w.win - got && closed == w.w.closed
                    && writeWaiters == old(writeWaiters))
              && added == old(added) + Credit.TotalAccepted(old(Model()), w.passed)
              && granted == old(granted) + Credit.TotalGranted(old(Model()), w.passed) + got
      ensures waiting ==> rest == [] && win == 0 && !closed
      ensures old(win) > 0 || old(closed) ==>
                && !waiting && rest == env && eof == old(closed) && closed == old(closed)
                && got == (if old(win) < n then old(win) else n) && win == old(win) - got
    {
      Credit.AwaitPasses(Model(), env);
      writeWaiters := writeWaiters + 1;
      got, eof := 0, false;
      rest := Wait(env);
      waiting := win == 0 && !closed;
      if waiting {
        return;
      }
      writeWaiters := writeWaiters - 1;
      got := if win < n then win else n;
      win := win - got;
      granted := granted + got;
      eof := closed;
    }

    /** The waiting of `Reserve`. */
    method Wait(env: seq<seq<Credit.Event>>) returns (rest: seq<seq<Credit.Event>>)
      requires Valid()
      modifies this
      ensures Valid() && writeWaiters == old(writeWaiters) && (win > 0 || closed || rest == [])
      ensures var w := Credit.Await(old(Model()), env);
              && rest == w.rest && Model() == w.w
              && added == old(added) + Credit.TotalAccepted(old(Model()), w.passed)
              && granted == old(granted) + Credit.TotalGranted(old(Model()), w.passed)
    {
      rest := env;
      ghost var start, target := Model(), Credit.Await(Model(), env);
      ghost var passed: seq<Credit.Event> := [];
      assert passed + target.passed == target.passed;
      while win == 0 && !closed && rest != []
        invariant Valid() && writeWaiters == old(writeWaiters)
        invariant Credit.Proceeds(target, passed, Model(), rest)
        invariant added == old(added) + Credit.TotalAccepted(start, passed)
        invariant granted == old(granted) + Credit.TotalGranted(start, passed)
        invariant Model() == Credit.After(start, passed)
        decreases |rest|
      {
        Credit.AfterAppend(start, passed, rest[0]);
        Credit.ProceedsOn(target, passed, Model(), rest);
        Others(rest[0]);
        passed := passed + rest[0];
        rest := rest[1..];
      }
      assert passed + [] == passed;
    }
  }
}
