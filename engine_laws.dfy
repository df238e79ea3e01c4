/** What the throttle loop promises, proved about `Engine`: the callbacks'
    order and arguments, when it sleeps and for how long, that the block
    runs at most once and only within the limit, and that with one caller
    two passes of the loop always finish it. */
module EngineLaws {
  import opened Base
  import opened Store
  import opened States
  import opened RedisWrapper
  import opened Engine

  /** The steps of calling each of `ids` in turn with `args`. */
  function Notifications(ids: seq<nat>, args: Args, code: Code): (s: seq<Step>)
    ensures |s| == |ids|
  {
    seq(|ids|, i requires 0 <= i < |ids| => Notified(ids[i], args, code(ids[i], args).outcome))
  }

  /** The callbacks are called in order, each with the same arguments, until
      one raises; the error is the one that callback raised. */
  lemma NotifySteps(c: Conn, configHook: Value, hook: Value, args: Args, code: Code)
    ensures var ids := Callbacks(configHook, hook);
      var n := Notify(c, configHook, hook, args, code);
      && |n.steps| <= |ids| && n.steps == Notifications(ids[..|n.steps|], args, code)
      && (n.raised.None? <==> forall j :: 0 <= j < |ids| ==> code(ids[j], args).outcome.Returned?)
      && (n.raised.None? ==> |n.steps| == |ids|)
      && (n.raised.Some? ==> |n.steps| >= 1 && code(ids[|n.steps| - 1], args).outcome == Raised(n.raised.value)
                             && forall j :: 0 <= j < |n.steps| - 1 ==> code(ids[j], args).outcome.Returned?)
  {
    var ids := Callbacks(configHook, hook);
    var n1 := Call(c, configHook, args, code);
    var n := Notify(c, configHook, hook, args, code);
    if n1.raised.None? {
      var n2 := Call(n1.conn, hook, args, code);
      assert n.steps == n1.steps + n2.steps;
      assert n.steps == Notifications(ids[..|n.steps|], args, code) by {
        forall i | 0 <= i < |n.steps| ensures n.steps[i] == Notifications(ids[..|n.steps|], args, code)[i] {
          if i < |n1.steps| {
            assert n.steps[i] == n1.steps[i];
          } else {
            assert n.steps[i] == n2.steps[i - |n1.steps|];
          }
        }
      }
    }
  }

  /** One callback sends nothing to the store: only time passes. */
  lemma CallStore(c: Conn, v: Value, args: Args, code: Code, key: string)
    requires c.store.Bounded(key)
    ensures var n := Call(c, v, args, code);
      && n.conn.nx == c.nx && n.conn.store.log == c.store.log && n.conn.store.version == c.store.version
      && (v.Proc? ==> n.conn.store.Live()) && n.conn.store.Bounded(key)
      && n.conn.store.data.Keys <= c.store.data.Keys
  {
    if v.Proc? {
      ElapseKeeps(c.store, code(v.id, args).elapsed, key);
    }
  }

  /** Callbacks send nothing to the store: only time passes, so expired
      keys stay gone and a key bound to expire stays so. */
  lemma NotifyStore(c: Conn, configHook: Value, hook: Value, args: Args, code: Code, key: string)
    requires c.store.Bounded(key)
    ensures var n := Notify(c, configHook, hook, args, code);
      && n.conn.nx == c.nx && n.conn.store.log == c.store.log && n.conn.store.version == c.store.version
      && (Callbacks(configHook, hook) != [] ==> n.conn.store.Live()) && n.conn.store.Bounded(key)
      && n.conn.store.data.Keys <= c.store.data.Keys
  {
    var n1 := Call(c, configHook, args, code);
    CallStore(c, configHook, args, code, key);
    if n1.raised.None? {
      CallStore(n1.conn, hook, args, code, key);
    }
  }

  /** Callbacks that take no time and never raise leave the store exactly as it was. */
  lemma NotifyCalm(c: Conn, configHook: Value, hook: Value, args: Args, code: Code)
    requires forall id, a :: code(id, a).elapsed == 0 && code(id, a).outcome.Returned?
    requires c.store.Live()
    ensures Notify(c, configHook, hook, args, code) == Notice(c, Notifications(Callbacks(configHook, hook), args, code), None)
  {
    NotifySteps(c, configHook, hook, args, code);
    ElapseNothing(c.store);
  }

  /** A negative first TTL returns at once: no callback, no sleep. */
  lemma WaitReturnsEarly(c: Conn, sf: Surface, count: int, code: Code)
    requires c.Ttl(sf.storeKey).1.Negative()
    ensures WaitForInterval(c, sf, count, code) == Waited(c.Ttl(sf.storeKey).0, [Read(c.Ttl(sf.storeKey).1)])
  {
  }

  /** After a non-negative first TTL every callback gets the overflowing
      count and that TTL, the config's first; unless one raises, the TTL is
      read again and the call sleeps exactly that long when it is not
      negative. */
  lemma WaitNotifies(c: Conn, sf: Surface, count: int, code: Code)
    requires !c.Ttl(sf.storeKey).1.Negative() && sf.configHook.Some?
    ensures var t1 := c.Ttl(sf.storeKey).1;
      var ids := Callbacks(sf.configHook.value, sf.hook);
      var a := sf.HookArgs(count, t1);
      var w := WaitForInterval(c, sf, count, code);
      var s := w.Steps();
      && (w.Broke? <==> exists j :: 0 <= j < |ids| && code(ids[j], a).outcome.Raised?)
      && (w.Broke? ==> 2 <= |s| <= |ids| + 1 && s == [Read(t1)] + Notifications(ids[..|s| - 1], a, code)
                       && code(ids[|s| - 2], a).outcome == Raised(w.message))
      && (w.Waited? ==> |ids| + 2 <= |s| <= |ids| + 3 && s[..|ids| + 1] == [Read(t1)] + Notifications(ids, a, code)
                        && s[|ids| + 1].Read? && s[|ids| + 1].ttl.Float?
                        && (|s| == |ids| + 3 <==> !s[|ids| + 1].ttl.Negative())
                        && (|s| == |ids| + 3 ==> s[|ids| + 2] == Slept(s[|ids| + 1].ttl)))
  {
    WaitBroke(c, sf, count, code);
    WaitWaited(c, sf, count, code);
  }

  /** The half of `WaitNotifies` about a callback that raises. */
  lemma WaitBroke(c: Conn, sf: Surface, count: int, code: Code)
    requires !c.Ttl(sf.storeKey).1.Negative() && sf.configHook.Some?
    ensures var t1 := c.Ttl(sf.storeKey).1;
      var ids := Callbacks(sf.configHook.value, sf.hook);
      var a := sf.HookArgs(count, t1);
      var w := WaitForInterval(c, sf, count, code);
      var s := w.Steps();
      && (w.Broke? <==> exists j :: 0 <= j < |ids| && code(ids[j], a).outcome.Raised?)
      && (w.Broke? ==> 2 <= |s| <= |ids| + 1 && s == [Read(t1)] + Notifications(ids[..|s| - 1], a, code)
                       && code(ids[|s| - 2], a).outcome == Raised(w.message))
  {
    var (c1, t1) := c.Ttl(sf.storeKey);
    var a := sf.HookArgs(count, t1);
    var n := Notify(c1, sf.configHook.value, sf.hook, a, code);
    NotifySteps(c1, sf.configHook.value, sf.hook, a, code);
    var w := WaitForInterval(c, sf, count, code);
    assert w.Broke? <==> n.raised.Some?;
    if n.raised.Some? {
      assert w == Broke(n.conn, [Read(t1)] + n.steps, n.raised.value);
    }
  }

  /** The half of `WaitNotifies` about a wait that returns to the loop. */
  lemma WaitWaited(c: Conn, sf: Surface, count: int, code: Code)
    requires !c.Ttl(sf.storeKey).1.Negative() && sf.configHook.Some?
    ensures var t1 := c.Ttl(sf.storeKey).1;
      var ids := Callbacks(sf.configHook.value, sf.hook);
      var a := sf.HookArgs(count, t1);
      var w := WaitForInterval(c, sf, count, code);
      var s := w.Steps();
      w.Waited? ==> |ids| + 2 <= |s| <= |ids| + 3 && s[..|ids| + 1] == [Read(t1)] + Notifications(ids, a, code)
                    && s[|ids| + 1].Read? && s[|ids| + 1].ttl.Float?
                    && (|s| == |ids| + 3 <==> !s[|ids| + 1].ttl.Negative())
                    && (|s| == |ids| + 3 ==> s[|ids| + 2] == Slept(s[|ids| + 1].ttl))
  {
    var (c1, t1) := c.Ttl(sf.storeKey);
    var a := sf.HookArgs(count, t1);
    var ids := Callbacks(sf.configHook.value, sf.hook);
    var n := Notify(c1, sf.configHook.value, sf.hook, a, code);
    NotifySteps(c1, sf.configHook.value, sf.hook, a, code);
    if n.raised.None? {
      var (c2, t2) := n.conn.Ttl(sf.storeKey);
      var head := [Read(t1)] + n.steps;
      var s := WaitForInterval(c, sf, count, code).Steps();
      assert s == if t2.Negative() then head + [Read(t2)] else head + [Read(t2), Slept(t2)];
      assert n.steps == Notifications(ids, a, code);
      assert s[..|ids| + 1] == head;
      assert s[|ids| + 1] == Read(t2);
    }
  }

  /** The wait as the code is written, where `Config` has no
      `on_throttled` reader: a non-negative first TTL raises NoMethodError
      before any callback runs and before any sleep. */
  lemma WaitMissingReader(c: Conn, sf: Surface, count: int, code: Code)
    requires !c.Ttl(sf.storeKey).1.Negative() && sf.configHook.None?
    ensures WaitForInterval(c, sf, count, code) == Broke(c.Ttl(sf.storeKey).0, [Read(c.Ttl(sf.storeKey).1)], NoMethodError)
  {
  }

  /** A wait sends no INCRBY and holds only reads, callbacks and a sleep. */
  lemma WaitSteps(c: Conn, sf: Surface, count: int, code: Code)
    ensures var w := WaitForInterval(c, sf, count, code);
      && (forall i :: 0 <= i < |w.Steps()| ==> w.Steps()[i].Read? || w.Steps()[i].Notified? || w.Steps()[i].Slept?)
      && Increments(w.Conn().store.log) == Increments(c.store.log) && w.Conn().nx == c.nx
  {
    var key := sf.storeKey;
    var (c1, t1) := c.Ttl(key);
    IncrementsSnoc(c.store.log, Sent(Pttl(key), Integer(c.store.RemainingMs(key))));
    if !t1.Negative() && sf.configHook.Some? {
      var a := sf.HookArgs(count, t1);
      var n := Notify(c1, sf.configHook.value, sf.hook, a, code);
      NotifyLog(c1, sf.configHook.value, sf.hook, a, code);
      IncrementsSnoc(n.conn.store.log, Sent(Pttl(key), Integer(n.conn.store.RemainingMs(key))));
    }
  }

  /** Callbacks send nothing to the store and leave the probe cache alone;
      every step they add is a notification. */
  lemma NotifyLog(c: Conn, configHook: Value, hook: Value, args: Args, code: Code)
    ensures var n := Notify(c, configHook, hook, args, code);
      && n.conn.nx == c.nx && n.conn.store.log == c.store.log
      && forall i :: 0 <= i < |n.steps| ==> n.steps[i].Notified?
  {
    var n1 := Call(c, configHook, args, code);
    if n1.raised.None? {
      var n2 := Call(n1.conn, hook, args, code);
      assert Notify(c, configHook, hook, args, code).steps == n1.steps + n2.steps;
    }
  }

  /** A wait that returns to the loop leaves the key gone, whichever way it
      returns: no expiry pending, the pending expiry passing during the
      callbacks, or the sleep. */
  lemma WaitClears(c: Conn, sf: Surface, count: int, code: Code)
    requires c.store.Live() && c.store.Bounded(sf.storeKey)
    ensures var w := WaitForInterval(c, sf, count, code);
      w.Waited? ==> sf.storeKey !in w.conn.store.data && w.conn.store.Live()
  {
    var key := sf.storeKey;
    var (c1, t1) := c.Ttl(key);
    PttlNegative(c.store, key);
    if !t1.Negative() && sf.configHook.Some? {
      var a := sf.HookArgs(count, t1);
      NotifyStore(c1, sf.configHook.value, sf.hook, a, code, key);
      var n := Notify(c1, sf.configHook.value, sf.hook, a, code);
      PttlNegative(n.conn.store, key);
      var (c2, t2) := n.conn.Ttl(key);
      if !t2.Negative() {
        ElapseRemaining(c2.store, key);
        ElapseKeeps(c2.store, c2.store.RemainingMs(key), key);
      }
    }
  }

  lemma PrependTwice(s: seq<Step>, t: seq<Step>, r: Run)
    ensures Prepend(s, Prepend(t, r)) == Prepend(s + t, r)
  {
    assert s + (t + r.steps) == (s + t) + r.steps;
  }

  /** The loop with one pass more: that pass, then, if it goes round
      again, the rest. */
  lemma LoopRound(c: Conn, sf: Surface, code: Code, rounds: nat)
    ensures var r := Round(c, sf, code);
      Loop(c, sf, code, rounds + 1) == if r.Finished? then r else Prepend(r.steps, Loop(r.conn, sf, code, rounds))
  {
  }

  /** Each pass of the loop increments the counter exactly once and records
      that count as its first step and nowhere else. */
  lemma RoundCountsOnce(c: Conn, sf: Surface, code: Code)
    ensures var r := Round(c, sf, code);
      var i := c.Increment(sf.storeKey, sf.period);
      && |r.steps| >= 2 && r.steps[0] == Counted(i.1, i.2)
      && (forall k :: 1 <= k < |r.steps| ==> !r.steps[k].Counted?)
      && Increments(r.conn.store.log) == Increments(c.store.log) + 1
  {
    RoundLog(c, sf, code);
    RoundShape(c, sf, code);
  }

  /** A pass sends exactly one INCRBY. */
  lemma RoundLog(c: Conn, sf: Surface, code: Code)
    ensures Increments(Round(c, sf, code).conn.store.log) == Increments(c.store.log) + 1
  {
    var i := c.Increment(sf.storeKey, sf.period);
    IncrementSendsOneIncrBy(c, sf.storeKey, sf.period);
    WaitSteps(i.0, sf, i.1, code);
  }

  /** A pass records its count first and no other count after it. */
  lemma RoundShape(c: Conn, sf: Surface, code: Code)
    ensures var r := Round(c, sf, code);
      var i := c.Increment(sf.storeKey, sf.period);
      && |r.steps| >= 2 && r.steps[0] == Counted(i.1, i.2)
      && (forall k :: 1 <= k < |r.steps| ==> !r.steps[k].Counted?)
  {
    var i := c.Increment(sf.storeKey, sf.period);
    RoundOverflow(c, sf, code);
    if i.1 > sf.limit {
      WaitSteps(i.0, sf, i.1, code);
      var w := WaitForInterval(i.0, sf, i.1, code);
      assert |w.Steps()| >= 1 by {
        var (c1, t1) := i.0.Ttl(sf.storeKey);
        if !t1.Negative() && sf.configHook.Some? {
          NotifySteps(c1, sf.configHook.value, sf.hook, sf.HookArgs(i.1, t1), code);
        }
      }
      var r := Round(c, sf, code);
      forall k | 1 <= k < |r.steps| ensures !r.steps[k].Counted? {
        assert r.steps[k] == w.Steps()[k - 1];
      }
    }
  }

  /** A pass goes round again only after an overflow, and after an
      overflow its steps are the count, then what `wait_for_interval` did. */
  lemma RoundOverflow(c: Conn, sf: Surface, code: Code)
    ensures var r := Round(c, sf, code);
      var i := c.Increment(sf.storeKey, sf.period);
      && (r.Pending? ==> i.1 > sf.limit)
      && (i.1 > sf.limit ==> r.steps == [Counted(i.1, i.2)] + WaitForInterval(i.0, sf, i.1, code).Steps())
  {
  }

  /** After an overflow a pass runs no block and counts above the limit. */
  lemma OverflowAbove(c: Conn, sf: Surface, code: Code)
    ensures var r := Round(c, sf, code);
      c.Increment(sf.storeKey, sf.period).1 > sf.limit ==>
        Quiet(r.steps, sf.limit)
  {
    var r := Round(c, sf, code);
    var i := c.Increment(sf.storeKey, sf.period);
    RoundOverflow(c, sf, code);
    if i.1 > sf.limit {
      WaitSteps(i.0, sf, i.1, code);
      var ws := WaitForInterval(i.0, sf, i.1, code).Steps();
      forall k | 0 <= k < |r.steps| ensures !r.steps[k].Yielded? && (r.steps[k].Counted? ==> r.steps[k].count > sf.limit) {
        if k > 0 { assert r.steps[k] == ws[k - 1]; }
      }
    }
  }

  /** In one pass the block runs only right after a count within the
      limit; a pass that goes round again runs no block and counts above it. */
  lemma RoundYields(c: Conn, sf: Surface, code: Code)
    ensures var r := Round(c, sf, code);
      && BlockRight(r, sf, code) && (r.Pending? ==> Quiet(r.steps, sf.limit))
  {
    RoundOverflow(c, sf, code);
    OverflowAbove(c, sf, code);
  }

  /** A pass that goes round again, put in front of the rest of the loop,
      keeps both properties. */
  lemma PrependYields(s: seq<Step>, r: Run, sf: Surface, code: Code)
    requires Quiet(s, sf.limit)
    requires YieldsRight(r, sf, code) && AdmitsWithin(r, sf)
    ensures YieldsRight(Prepend(s, r), sf, code) && AdmitsWithin(Prepend(s, r), sf)
  {
    var p := Prepend(s, r);
    assert p.steps == s + r.steps && p.Finished? == r.Finished?;
    assert p.Finished? ==> p.outcome == r.outcome;
    forall i | 0 <= i < |p.steps| && p.steps[i].Yielded?
      ensures i == |p.steps| - 1 && i >= 1 && p.steps[i - 1].Counted? && p.steps[i - 1].count <= sf.limit
        && p.steps[i].args == sf.BlockArgs(p.steps[i - 1].count, p.steps[i - 1].second)
        && p.Finished? && p.outcome == p.steps[i].outcome == code(sf.block, p.steps[i].args).outcome
    {
      if i < |s| {
        assert false;
      } else {
        assert p.steps[i] == r.steps[i - |s|];
        assert p.steps[i - 1] == r.steps[i - 1 - |s|];
      }
    }
    forall i | 0 <= i < |p.steps| && p.steps[i].Counted? && p.steps[i].count <= sf.limit
      ensures i + 1 < |p.steps| && p.steps[i + 1].Yielded?
    {
      if i < |s| {
        assert false;
      } else {
        assert p.steps[i] == r.steps[i - |s|];
        assert i + 1 < |p.steps| ==> p.steps[i + 1] == r.steps[i + 1 - |s|];
      }
    }
  }

  /** A loop whose first pass finishes the call is that pass. */
  lemma LoopFinished(c: Conn, sf: Surface, code: Code, rounds: nat)
    requires rounds > 0 && Round(c, sf, code).Finished?
    ensures BlockRight(Loop(c, sf, code, rounds), sf, code)
  {
    RoundYields(c, sf, code);
    LoopRound(c, sf, code, rounds - 1);
  }

  /** A loop whose first pass goes round again keeps the block right when
      the rest of the loop does. */
  lemma LoopPending(c: Conn, sf: Surface, code: Code, rounds: nat)
    requires rounds > 0 && Round(c, sf, code).Pending?
    requires BlockRight(Loop(Round(c, sf, code).conn, sf, code, rounds - 1), sf, code)
    ensures BlockRight(Loop(c, sf, code, rounds), sf, code)
  {
    var r1 := Round(c, sf, code);
    RoundYields(c, sf, code);
    LoopRound(c, sf, code, rounds - 1);
    PrependYields(r1.steps, Loop(r1.conn, sf, code, rounds - 1), sf, code);
  }

  /** Over the whole loop the block runs at most once, as the last step,
      right after the count that admitted it. */
  lemma {:induction false} LoopYields(c: Conn, sf: Surface, code: Code, rounds: nat)
    ensures BlockRight(Loop(c, sf, code, rounds), sf, code)
    decreases rounds
  {
    if rounds > 0 {
      if Round(c, sf, code).Finished? {
        LoopFinished(c, sf, code, rounds);
      } else {
        LoopYields(Round(c, sf, code).conn, sf, code, rounds - 1);
        LoopPending(c, sf, code, rounds);
      }
    }
  }

  /** A pass that goes round again leaves the key gone and the store live. */
  lemma RoundAgainClears(c: Conn, sf: Surface, code: Code)
    requires c.store.Live()
    ensures var r := Round(c, sf, code);
      r.Pending? ==> sf.storeKey !in r.conn.store.data && r.conn.store.Live()
  {
    var i := c.Increment(sf.storeKey, sf.period);
    IncrementBounds(c, sf.storeKey, sf.period);
    WaitClears(i.0, sf, i.1, code);
  }

  /** With no counter for the key the pass counts 1 and, as the limit is at
      least 1, runs the block. */
  lemma AbsentAdmits(c: Conn, sf: Surface, code: Code)
    requires sf.limit >= 1 && sf.storeKey !in c.store.data
    ensures var r := Round(c, sf, code);
      r.Finished? && r.steps[0].Counted? && r.steps[0].count == 1 && r.steps[1].Yielded?
  {
    IncrementCounts(c, sf.storeKey, sf.period);
  }

  /** With one caller the loop ends in at most two passes whatever happens
      in them, and any further passes change nothing; when a second pass is
      needed it counts 1. */
  lemma LoopSettles(c: Conn, sf: Surface, code: Code, rounds: nat)
    requires sf.limit >= 1 && c.store.Live() && rounds >= 2
    ensures Loop(c, sf, code, rounds) == Loop(c, sf, code, 2) && Loop(c, sf, code, 2).Finished?
    ensures var r1 := Round(c, sf, code);
      r1.Pending? ==> Round(r1.conn, sf, code).Finished? && Round(r1.conn, sf, code).steps[0].count == 1
  {
    var r1 := Round(c, sf, code);
    if r1.Pending? {
      RoundAgainClears(c, sf, code);
      AbsentAdmits(r1.conn, sf, code);
      assert Loop(r1.conn, sf, code, rounds - 1) == Round(r1.conn, sf, code) == Loop(r1.conn, sf, code, 1);
    }
  }

  /** With limiting off the block runs once with nothing counted; the store
      is sent nothing and only the block's time passes. */
  lemma NoLimitBypass(c: Conn, sf: Surface, code: Code)
    ensures var r := Throttle(c, sf, true, code);
      && r.Finished? && r.steps == [Yielded(sf.BypassArgs(), r.outcome)]
      && r.outcome == code(sf.block, sf.BypassArgs()).outcome
      && r.conn.nx == c.nx && r.conn.store.log == c.store.log
      && r.conn.store.data.Keys <= c.store.data.Keys
      && (sf.style.ByState? ==> sf.BypassArgs() == WithState(State(sf.style.params, None, None)))
      && (sf.style.ByCount? ==> sf.BypassArgs() == WithNothing)
  {
  }

  /** Inside a fresh window, with user code that takes no time, a count
      below the limit is admitted at once and the window moves on by one. */
  lemma RoundInWindow(c: Conn, sf: Surface, code: Code, k: nat)
    requires forall id, a :: code(id, a).elapsed == 0 && code(id, a).outcome.Returned?
    requires c.store.Live() && sf.period >= 1 && k < sf.limit && FreshWindow(c.store, sf.storeKey, k, sf.period)
    ensures var r := Round(c, sf, code);
      && r.Finished? && |r.steps| == 2 && r.steps[0].Counted? && r.steps[0].count == k + 1
      && r.steps[1] == Yielded(sf.BlockArgs(k + 1, r.steps[0].second), r.outcome)
      && r.conn.store.Live() && r.conn.store.now == c.store.now
      && FreshWindow(r.conn.store, sf.storeKey, k + 1, sf.period)
  {
    var i := c.Increment(sf.storeKey, sf.period);
    IncrementInWindow(c, sf.storeKey, sf.period, k);
    IncrementBounds(c, sf.storeKey, sf.period);
    assert code(sf.block, sf.BlockArgs(i.1, i.2)).elapsed == 0;
    ElapseNothing(i.0.store);
  }

  /** `n` throttle calls one after the other. */
  datatype Session = Session(runs: seq<Run>, end: Conn)

  function Repeat(c: Conn, call: Conn -> Run, n: nat): (s: Session)
    ensures |s.runs| == n
    decreases n
  {
    if n == 0 then Session([], c)
    else
      var r := call(c);
      var rest := Repeat(r.conn, call, n - 1);
      Session([r] + rest.runs, rest.end)
  }

  /** A throttle call on whatever the store is by then. */
  function Caller(sf: Surface, code: Code): Conn -> Run
  {
    c => Throttle(c, sf, false, code)
  }

  /** One more call appends its run and moves the end on. */
  lemma {:induction false} RepeatSnoc(c: Conn, call: Conn -> Run, n: nat)
    ensures var s := Repeat(c, call, n);
      Repeat(c, call, n + 1) == Session(s.runs + [call(s.end)], call(s.end).conn)
    decreases n
  {
    if n > 0 {
      var r := call(c);
      RepeatSnoc(r.conn, call, n - 1);
      var rest := Repeat(r.conn, call, n - 1);
      assert [r] + (rest.runs + [call(rest.end)]) == ([r] + rest.runs) + [call(rest.end)];
    }
  }

  /** The run ran the block at once, with the count `n`. */
  predicate AdmittedAt(r: Run, sf: Surface, n: int)
  {
    && r.Finished? && |r.steps| == 2 && r.steps[0].Counted? && r.steps[0].count == n
    && r.steps[1] == Yielded(sf.BlockArgs(n, r.steps[0].second), r.outcome)
  }

  lemma ThrottleInWindow(c: Conn, sf: Surface, code: Code, k: nat)
    requires forall id, a :: code(id, a).elapsed == 0 && code(id, a).outcome.Returned?
    requires c.store.Live() && sf.period >= 1 && k < sf.limit && FreshWindow(c.store, sf.storeKey, k, sf.period)
    ensures var r := Throttle(c, sf, false, code);
      && AdmittedAt(r, sf, k + 1) && r.conn.store.Live() && r.conn.store.now == c.store.now
      && FreshWindow(r.conn.store, sf.storeKey, k + 1, sf.period)
  {
    RoundInWindow(c, sf, code, k);
    assert Throttle(c, sf, false, code) == Round(c, sf, code);
  }

  /** Calls that each admit the next count of a fresh window at once,
      repeated, see the counts k+1, k+2, ... in turn. */
  lemma {:induction false} RepeatCounts(c: Conn, call: Conn -> Run, sf: Surface, k: nat, n: nat)
    requires forall x: Conn, j: nat :: x.store.Live() && j < sf.limit && FreshWindow(x.store, sf.storeKey, j, sf.period) ==>
               && AdmittedAt(call(x), sf, j + 1) && call(x).conn.store.Live() && call(x).conn.store.now == x.store.now
               && FreshWindow(call(x).conn.store, sf.storeKey, j + 1, sf.period)
    requires c.store.Live() && k + n <= sf.limit && FreshWindow(c.store, sf.storeKey, k, sf.period)
    ensures var s := Repeat(c, call, n);
      && (forall i :: 0 <= i < n ==> AdmittedAt(s.runs[i], sf, k + i + 1))
      && s.end.store.Live() && s.end.store.now == c.store.now && FreshWindow(s.end.store, sf.storeKey, k + n, sf.period)
    decreases n
  {
    if n > 0 {
      var r := call(c);
      RepeatCounts(r.conn, call, sf, k + 1, n - 1);
      var rest := Repeat(r.conn, call, n - 1);
      AdmittedCons(r, rest.runs, sf, k);
    }
  }

  /** Successive calls within one window, with user code that takes no
      time, see the counts k+1, k+2, ... in turn, each run straight away. */
  lemma SuccessiveCounts(c: Conn, sf: Surface, code: Code, k: nat, n: nat)
    requires forall id, a :: code(id, a).elapsed == 0 && code(id, a).outcome.Returned?
    requires c.store.Live() && sf.period >= 1 && k + n <= sf.limit && FreshWindow(c.store, sf.storeKey, k, sf.period)
    ensures var s := Repeat(c, Caller(sf, code), n);
      && (forall i :: 0 <= i < n ==> AdmittedAt(s.runs[i], sf, k + i + 1))
      && s.end.store.Live() && s.end.store.now == c.store.now && FreshWindow(s.end.store, sf.storeKey, k + n, sf.period)
  {
    var call := Caller(sf, code);
    forall x: Conn, j: nat | x.store.Live() && j < sf.limit && FreshWindow(x.store, sf.storeKey, j, sf.period)
      ensures && AdmittedAt(call(x), sf, j + 1) && call(x).conn.store.Live() && call(x).conn.store.now == x.store.now
              && FreshWindow(call(x).conn.store, sf.storeKey, j + 1, sf.period)
    {
      ThrottleInWindow(x, sf, code, j);
    }
    RepeatCounts(c, call, sf, k, n);
  }

  lemma AdmittedCons(r: Run, rest: seq<Run>, sf: Surface, k: int)
    requires AdmittedAt(r, sf, k + 1) && forall i :: 0 <= i < |rest| ==> AdmittedAt(rest[i], sf, k + 1 + i + 1)
    ensures forall i :: 0 <= i < |rest| + 1 ==> AdmittedAt(([r] + rest)[i], sf, k + i + 1)
  {
    forall i | 0 <= i < |rest| + 1 ensures AdmittedAt(([r] + rest)[i], sf, k + i + 1) {
      if i > 0 {
        assert ([r] + rest)[i] == rest[i - 1];
      }
    }
  }

  /** A wait on a window that is full and has just been opened, with
      callbacks that take no time and do not raise: each callback sees the
      whole period, the second read sees it again, and one sleep of exactly
      the period ends the window. */
  lemma WaitInFullWindow(c: Conn, sf: Surface, count: int, code: Code, k: nat)
    requires forall id, a :: code(id, a).elapsed == 0 && code(id, a).outcome.Returned?
    requires c.store.Live() && sf.period >= 1 && k >= 1 && FreshWindow(c.store, sf.storeKey, k, sf.period)
    requires sf.configHook.Some?
    ensures var t := Float(sf.period * 1000);
      var ids := Callbacks(sf.configHook.value, sf.hook);
      var w := WaitForInterval(c, sf, count, code);
      && w.Waited?
      && w.steps == [Read(t)] + Notifications(ids, sf.HookArgs(count, t), code) + [Read(t), Slept(t)]
      && sf.storeKey !in w.conn.store.data && w.conn.store.Live()
      && w.conn.store.now == c.store.now + sf.period * 1000
  {
    var key := sf.storeKey;
    var (c1, t1) := c.Ttl(key);
    assert t1 == Float(sf.period * 1000);
    NotifyCalm(c1, sf.configHook.value, sf.hook, sf.HookArgs(count, t1), code);
    var (c2, t2) := c1.Ttl(key);
    ElapseRemaining(c2.store, key);
    ElapseKeeps(c2.store, c2.store.RemainingMs(key), key);
  }

  /** The run of a call on a full window that has a whole period left:
      the count one over the limit, the first read, the callbacks, the second
      read and one sleep, all of exactly the period; then the count 1 and
      the block. */
  predicate OverflowRun(r: Run, sf: Surface, code: Code)
    requires sf.configHook.Some?
  {
    var t := Float(sf.period * 1000);
    var ids := Callbacks(sf.configHook.value, sf.hook);
    var m := |ids|;
    && r.Finished? && |r.steps| == m + 6
    && r.steps[0].Counted? && r.steps[0].count == sf.limit + 1
    && r.steps[1..m + 4] == [Read(t)] + Notifications(ids, sf.HookArgs(sf.limit + 1, t), code) + [Read(t), Slept(t)]
    && r.steps[m + 4].Counted? && r.steps[m + 4].count == 1
    && r.steps[m + 5] == Yielded(sf.BlockArgs(1, r.steps[m + 4].second), r.outcome)
  }

  /** Such a run sleeps exactly once, for the period, and ends with the block. */
  lemma OverflowSleepsOnce(r: Run, sf: Surface, code: Code)
    requires sf.configHook.Some? && OverflowRun(r, sf, code)
    ensures forall i :: 0 <= i < |r.steps| && r.steps[i].Slept? ==> r.steps[i] == Slept(Float(sf.period * 1000))
    ensures exists i :: 0 <= i < |r.steps| && r.steps[i].Slept?
    ensures forall i, j :: 0 <= i < |r.steps| && 0 <= j < |r.steps| && r.steps[i].Slept? && r.steps[j].Slept? ==> i == j
    ensures r.Finished? && r.steps[|r.steps| - 1].Yielded? && r.steps[|r.steps| - 2] == Counted(1, r.steps[|r.steps| - 2].second)
  {
    var t := Float(sf.period * 1000);
    var ids := Callbacks(sf.configHook.value, sf.hook);
    var m := |ids|;
    var note := Notifications(ids, sf.HookArgs(sf.limit + 1, t), code);
    var mid := [Read(t)] + note + [Read(t), Slept(t)];
    assert forall k :: 0 <= k < |note| ==> note[k].Notified?;
    forall i | 0 <= i < |r.steps| && r.steps[i].Slept? ensures i == m + 3 && r.steps[i] == Slept(t) {
      if 1 <= i < m + 4 {
        assert r.steps[i] == mid[i - 1];
      }
    }
    assert r.steps[m + 3] == mid[m + 2];
  }

  /** The first pass of such a call: one over the limit, then the full wait. */
  lemma OverflowFirstRound(c: Conn, sf: Surface, code: Code)
    requires forall id, a :: code(id, a).elapsed == 0 && code(id, a).outcome.Returned?
    requires c.store.Live() && sf.period >= 1 && sf.limit >= 1 && sf.configHook.Some?
    requires FreshWindow(c.store, sf.storeKey, sf.limit, sf.period)
    ensures var i := c.Increment(sf.storeKey, sf.period);
      var w := WaitForInterval(i.0, sf, i.1, code);
      var t := Float(sf.period * 1000);
      && i.1 == sf.limit + 1 && w.Waited?
      && Round(c, sf, code) == Pending(w.conn, [Counted(i.1, i.2)] + w.steps)
      && w.steps == [Read(t)] + Notifications(Callbacks(sf.configHook.value, sf.hook), sf.HookArgs(sf.limit + 1, t), code) + [Read(t), Slept(t)]
      && sf.storeKey !in w.conn.store.data && w.conn.store.Live()
      && w.conn.store.now == c.store.now + sf.period * 1000
  {
    var key := sf.storeKey;
    var i := c.Increment(key, sf.period);
    IncrementInWindow(c, key, sf.period, sf.limit);
    IncrementBounds(c, key, sf.period);
    WaitInFullWindow(i.0, sf, i.1, code, sf.limit + 1);
  }

  lemma WindowOverflow(c: Conn, sf: Surface, code: Code)
    requires forall id, a :: code(id, a).elapsed == 0 && code(id, a).outcome.Returned?
    requires c.store.Live() && sf.period >= 1 && sf.limit >= 1 && sf.configHook.Some?
    requires FreshWindow(c.store, sf.storeKey, sf.limit, sf.period)
    ensures var r := Throttle(c, sf, false, code);
      OverflowRun(r, sf, code) && r.conn.store.now == c.store.now + sf.period * 1000
  {
    var key := sf.storeKey;
    var i := c.Increment(key, sf.period);
    var w := WaitForInterval(i.0, sf, i.1, code);
    var r1 := Round(c, sf, code);
    OverflowFirstRound(c, sf, code);
    var c3 := w.conn;
    AbsentAdmits(c3, sf, code);
    var j := c3.Increment(key, sf.period);
    IncrementBounds(c3, key, sf.period);
    IncrementCounts(c3, key, sf.period);
    assert code(sf.block, sf.BlockArgs(j.1, j.2)).elapsed == 0;
    ElapseNothing(j.0.store);
    var r2 := Round(c3, sf, code);
    assert Loop(c3, sf, code, 1) == r2;
    assert Throttle(c, sf, false, code) == Prepend(r1.steps, r2);
  }

  /** Calls that admit at once inside a window and wait out a full one,
      repeated from a key with no window: `limit` calls run at once with the
      counts 1 to `limit`, and the next is the overflow. */
  lemma RepeatWindow(c: Conn, call: Conn -> Run, sf: Surface, code: Code)
    requires sf.configHook.Some? && sf.limit >= 1
    requires forall x: Conn, j: nat :: x.store.Live() && j < sf.limit && FreshWindow(x.store, sf.storeKey, j, sf.period) ==>
               && AdmittedAt(call(x), sf, j + 1) && call(x).conn.store.Live() && call(x).conn.store.now == x.store.now
               && FreshWindow(call(x).conn.store, sf.storeKey, j + 1, sf.period)
    requires forall x: Conn :: x.store.Live() && FreshWindow(x.store, sf.storeKey, sf.limit, sf.period) ==>
               OverflowRun(call(x), sf, code) && call(x).conn.store.now == x.store.now + sf.period * 1000
    requires c.store.Live() && sf.storeKey !in c.store.data
    ensures var s := Repeat(c, call, sf.limit + 1);
      && (forall i :: 0 <= i < sf.limit ==> AdmittedAt(s.runs[i], sf, i + 1))
      && OverflowRun(s.runs[sf.limit], sf, code)
      && s.end.store.now == c.store.now + sf.period * 1000
  {
    RepeatCounts(c, call, sf, 0, sf.limit);
    var full := Repeat(c, call, sf.limit);
    RepeatSnoc(c, call, sf.limit);
    var s := Repeat(c, call, sf.limit + 1);
    forall i | 0 <= i < sf.limit ensures AdmittedAt(s.runs[i], sf, i + 1) {
      assert s.runs[i] == full.runs[i];
    }
  }

  /** One caller, no time spent in user code, starting on a key with no
      window: the first `limit` calls run at once with the counts 1 to
      `limit`, and the next one waits exactly once, for exactly one period,
      then runs with the count 1. */
  lemma OneWaitPerWindow(c: Conn, sf: Surface, code: Code)
    requires forall id, a :: code(id, a).elapsed == 0 && code(id, a).outcome.Returned?
    requires sf.limit >= 1 && sf.period >= 1 && sf.configHook.Some?
    requires c.store.Live() && sf.storeKey !in c.store.data
    ensures var s := Repeat(c, Caller(sf, code), sf.limit + 1);
      && (forall i :: 0 <= i < sf.limit ==> AdmittedAt(s.runs[i], sf, i + 1))
      && OverflowRun(s.runs[sf.limit], sf, code)
      && s.end.store.now == c.store.now + sf.period * 1000
  {
    var call := Caller(sf, code);
    forall x: Conn, j: nat | x.store.Live() && j < sf.limit && FreshWindow(x.store, sf.storeKey, j, sf.period)
      ensures && AdmittedAt(call(x), sf, j + 1) && call(x).conn.store.Live() && call(x).conn.store.now == x.store.now
              && FreshWindow(call(x).conn.store, sf.storeKey, j + 1, sf.period)
    {
      ThrottleInWindow(x, sf, code, j);
    }
    forall x: Conn | x.store.Live() && FreshWindow(x.store, sf.storeKey, sf.limit, sf.period)
      ensures OverflowRun(call(x), sf, code) && call(x).conn.store.now == x.store.now + sf.period * 1000
    {
      WindowOverflow(x, sf, code);
    }
    RepeatWindow(c, call, sf, code);
  }

  /** The eleven-call example: limit 10 per 1-second period. The ten first
      calls run at once with the counts 1 to 10; the eleventh sleeps once,
      for one second, and then runs with the count 1. */
  lemma ElevenCalls(c: Conn, sf: Surface, code: Code)
    requires forall id, a :: code(id, a).elapsed == 0 && code(id, a).outcome.Returned?
    requires sf.limit == 10 && sf.period == 1 && sf.configHook.Some?
    requires c.store.Live() && sf.storeKey !in c.store.data
    ensures var s := Repeat(c, Caller(sf, code), sf.limit + 1);
      && (forall i :: 0 <= i < 10 ==> AdmittedAt(s.runs[i], sf, i + 1))
      && var last := s.runs[10];
      && (forall i :: 0 <= i < |last.steps| && last.steps[i].Slept? ==> last.steps[i] == Slept(Float(1000)))
      && (exists i :: 0 <= i < |last.steps| && last.steps[i].Slept?)
      && (forall i, j :: 0 <= i < |last.steps| && 0 <= j < |last.steps| && last.steps[i].Slept? && last.steps[j].Slept? ==> i == j)
      && last.Finished? && last.steps[|last.steps| - 1].Yielded? && last.steps[|last.steps| - 2].Counted?
      && last.steps[|last.steps| - 2].count == 1
      && s.end.store.now == c.store.now + 1000
  {
    OneWaitPerWindow(c, sf, code);
    OverflowSleepsOnce(Repeat(c, Caller(sf, code), sf.limit + 1).runs[10], sf, code);
  }
}
