/** The throttle loop shared by `SpeedLimiter::Throttle#throttle` and the
    older module-level `SpeedLimiter.throttle`, as a function of the store it
    talks to. Both copies count an attempt, run the block when the count is
    within the limit, and otherwise wait for the window to pass and try
    again; they differ in the key, the arguments handed to user code and the
    callbacks, which a `Surface` collects. User code is a parameter: a
    function from the code's identity and its arguments to how it ended and
    how long it took. */
module Engine {
  import opened Base
  import opened Store
  import opened Params
  import opened States
  import opened RedisWrapper

  /** What user code is called with. */
  datatype Args =
    | WithState(state: State)
    | WithCount(count: int)
    | WithTtlKey(ttl: Num, key: string)
    | WithNothing

  /** A block or a callback, identified by a number, called with arguments. */
  type Code = (nat, Args) -> Completion

  /** What one throttle call did, in order. */
  datatype Step =
    | Counted(count: int, second: int)
    | Read(ttl: Num)
    | Notified(callback: nat, args: Args, outcome: Outcome)
    | Slept(ttl: Num)
    | Yielded(args: Args, outcome: Outcome)

  /** How user code is called: with a `State` (the `Throttle` class), or
      with bare values (the module method). */
  datatype Style = ByState(params: ThrottleParams) | ByCount

  /** What one throttle call works with. `configHook` is what reading
      `config.on_throttled` gives: a value, or `None` when the reader is
      missing and the read raises. */
  datatype Surface = Surface(storeKey: string, limit: int, period: int, configHook: Option<Value>,
                             hook: Value, block: nat, style: Style)
  {
    /** The block's arguments after a count within the limit. */
    function BlockArgs(count: int, second: int): Args
    {
      match style
      case ByState(p) => WithState(CreateState(p, Some(count), Some(Int(second))))
      case ByCount => WithCount(count)
    }

    /** A callback's arguments after an overflow, with the TTL just read. */
    function HookArgs(count: int, ttl: Num): Args
    {
      match style
      case ByState(p) => WithState(CreateState(p, Some(count), Some(ttl)))
      case ByCount => WithTtlKey(ttl, storeKey)
    }

    /** The block's arguments when limiting is switched off. */
    function BypassArgs(): Args
    {
      match style
      case ByState(p) => WithState(CreateState(p))
      case ByCount => WithNothing
    }
  }

  /** What reading a reader that `Config` does not declare raises. */
  const NoMethodError: string := "NoMethodError: undefined method `on_throttled' for SpeedLimiter::Config"

  /** The callbacks an overflow calls: the config's, then the throttle's,
      each only if it responds to `call`. */
  function Callbacks(configHook: Value, hook: Value): (ids: seq<nat>)
    ensures |ids| == (if configHook.Proc? then 1 else 0) + (if hook.Proc? then 1 else 0)
    ensures configHook.Proc? ==> ids[0] == configHook.id
    ensures hook.Proc? ==> ids[|ids| - 1] == hook.id
  {
    (if configHook.Proc? then [configHook.id] else []) + (if hook.Proc? then [hook.id] else [])
  }

  /** Calls user code; the time it takes passes on the store's clock. */
  function Invoke(c: Conn, code: Code, id: nat, args: Args): (Conn, Completion)
  {
    var d := code(id, args);
    (c.(store := c.store.Elapse(d.elapsed)), d)
  }

  /** The callbacks called so far, and the error one of them raised, if any. */
  datatype Notice = Notice(conn: Conn, steps: seq<Step>, raised: Option<string>)

  /** Calls one callback if it responds to `call`. */
  function Call(c: Conn, v: Value, args: Args, code: Code): Notice
  {
    if !v.RespondsToCall() then Notice(c, [], None)
    else
      var (c1, d) := Invoke(c, code, v.id, args);
      Notice(c1, [Notified(v.id, args, d.outcome)], if d.outcome.Raised? then Some(d.outcome.message) else None)
  }

  /** Calls the config's callback, then the throttle's; an exception from
      the first stops the second. */
  function Notify(c: Conn, configHook: Value, hook: Value, args: Args, code: Code): Notice
  {
    var n1 := Call(c, configHook, args, code);
    if n1.raised.Some? then n1
    else
      var n2 := Call(n1.conn, hook, args, code);
      Notice(n2.conn, n1.steps + n2.steps, n2.raised)
  }

  /** How `wait_for_interval` ended: back to the loop, or with an exception. */
  datatype Interval = Waited(conn: Conn, steps: seq<Step>) | Broke(conn: Conn, steps: seq<Step>, message: string)
  {
    function Conn(): Conn { match this case Waited(c, _) => c case Broke(c, _, _) => c }
    function Steps(): seq<Step> { match this case Waited(_, s) => s case Broke(_, s, _) => s }
  }

  /** `wait_for_interval`: reads the TTL and returns if it is negative;
      otherwise calls the callbacks, reads the TTL again and sleeps that long
      unless it has become negative. */
  function WaitForInterval(c: Conn, sf: Surface, count: int, code: Code): Interval
  {
    var (c1, t1) := c.Ttl(sf.storeKey);
    if t1.Negative() then Waited(c1, [Read(t1)])
    else
      match sf.configHook
      case None => Broke(c1, [Read(t1)], NoMethodError)
      case Some(cfg) =>
        var n := Notify(c1, cfg, sf.hook, sf.HookArgs(count, t1), code);
        var head := [Read(t1)] + n.steps;
        if n.raised.Some? then Broke(n.conn, head, n.raised.value)
        else
          var (c2, t2) := n.conn.Ttl(sf.storeKey);
          if t2.Negative() then Waited(c2, head + [Read(t2)])
          else Waited(c2.(store := c2.store.Elapse(t2.millis)), head + [Read(t2), Slept(t2)])
  }

  /** Where a throttle call stands: finished with an outcome, or about to
      go round the loop again. */
  datatype Run = Finished(conn: Conn, steps: seq<Step>, outcome: Outcome) | Pending(conn: Conn, steps: seq<Step>)

  /** One pass of the loop: count, then run the block or wait. */
  function Round(c: Conn, sf: Surface, code: Code): Run
  {
    var (c1, count, second) := c.Increment(sf.storeKey, sf.period);
    if count <= sf.limit then
      var args := sf.BlockArgs(count, second);
      var (c2, d) := Invoke(c1, code, sf.block, args);
      Finished(c2, [Counted(count, second), Yielded(args, d.outcome)], d.outcome)
    else
      match WaitForInterval(c1, sf, count, code)
      case Waited(c2, s) => Pending(c2, [Counted(count, second)] + s)
      case Broke(c2, s, m) => Finished(c2, [Counted(count, second)] + s, Raised(m))
  }

  function Prepend(s: seq<Step>, r: Run): Run
  {
    match r
    case Finished(c, t, o) => Finished(c, s + t, o)
    case Pending(c, t) => Pending(c, s + t)
  }

  /** At most `rounds` passes of the loop. */
  function Loop(c: Conn, sf: Surface, code: Code, rounds: nat): Run
    decreases rounds
  {
    if rounds == 0 then Pending(c, [])
    else
      match Round(c, sf, code)
      case Finished(c1, s, o) => Finished(c1, s, o)
      case Pending(c1, s) => Prepend(s, Loop(c1, sf, code, rounds - 1))
  }

  /** One throttle call: the block alone when limiting is off, otherwise the
      loop, which two passes always finish (`LoopSettles`). */
  function Throttle(c: Conn, sf: Surface, noLimit: bool, code: Code): Run
  {
    if noLimit then
      var (c1, d) := Invoke(c, code, sf.block, sf.BypassArgs());
      Finished(c1, [Yielded(sf.BypassArgs(), d.outcome)], d.outcome)
    else Loop(c, sf, code, 2)
  }

  /** The block runs only right after a count within the limit, with that
      count and that second reply, as the last step; the call returns what
      the block returned. */
  predicate YieldsRight(r: Run, sf: Surface, code: Code)
  {
    forall i :: 0 <= i < |r.steps| && r.steps[i].Yielded? ==>
      && i == |r.steps| - 1 && i >= 1 && r.steps[i - 1].Counted? && r.steps[i - 1].count <= sf.limit
      && r.steps[i].args == sf.BlockArgs(r.steps[i - 1].count, r.steps[i - 1].second)
      && r.Finished? && r.outcome == r.steps[i].outcome == code(sf.block, r.steps[i].args).outcome
  }

  /** A count within the limit is always followed by the block. */
  predicate AdmitsWithin(r: Run, sf: Surface)
  {
    forall i :: 0 <= i < |r.steps| && r.steps[i].Counted? && r.steps[i].count <= sf.limit ==>
      i + 1 < |r.steps| && r.steps[i + 1].Yielded?
  }

  /** Both properties of where the block runs. */
  predicate BlockRight(r: Run, sf: Surface, code: Code)
  {
    YieldsRight(r, sf, code) && AdmitsWithin(r, sf)
  }

  /** Steps that run no block and count only above the limit. */
  predicate Quiet(s: seq<Step>, limit: int)
  {
    forall k :: 0 <= k < |s| ==> !s[k].Yielded? && (s[k].Counted? ==> s[k].count > limit)
  }

  /** Runs user code; the time it takes passes on the server's clock. */
  method RunCode(server: Server, code: Code, id: nat, args: Args) returns (d: Completion)
    requires server.Valid()
    modifies server
    ensures server.Valid() && d == code(id, args) && server.Snap() == old(server.Snap()).Elapse(d.elapsed)
  {
    d := code(id, args);
    server.Elapse(d.elapsed);
  }
}
