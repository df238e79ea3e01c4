/** `SpeedLimiter::Throttle`: one limiter over a key, built from a config
    and the throttle's parameters, that talks to the store through a
    `SpeedLimiter::Redis` wrapper it creates on first use. */
module Throttling {
  import opened Base
  import opened Store
  import opened Configuration
  import opened Params
  import opened States
  import opened RedisWrapper
  import opened Engine
  import EngineLaws

  class Throttle {
    const config: Config
    const params: ThrottleParams
    /** The block given to `Throttle.new`. */
    const block: nat
    /** `@redis`, the wrapper, once created. */
    var redis: Redis?

    ghost predicate Valid()
      reads this, redis, if redis == null then {} else {redis.redis}
    {
      params.config == config && (redis != null ==> redis.Valid())
    }

    /** The server the wrapper talks to, or will: the one it already
        wraps, else the config's connection, else a new connection to the
        config's URL (`dialed`). */
    function Target(dialed: Server): Server
      reads this, config
    {
      if redis != null then redis.redis else if config.redis != null then config.redis else dialed
    }

    /** The store and the probe cache as the next call will find them. */
    function Model(dialed: Server): Conn
      reads this, config, redis, Target(dialed)
    {
      Conn(Target(dialed).Snap(), if redis != null then redis.nx else None)
    }

    /** The key, limit, period, callbacks and block of this throttle, read
        through the config's `on_throttled` callback. */
    function Surface(): Surface
      reads this, config, params.config
    {
      Engine.Surface(RedisKey(params), params.limit, params.period, Some(config.onThrottled),
                     OnThrottled(params), block, ByState(params))
    }

    constructor (config: Config, params: ThrottleParams, block: nat)
      requires params.config == config
      ensures this.config == config && this.params == params && this.block == block && redis == null && Valid()
    {
      this.config := config;
      this.params := params;
      this.block := block;
      redis := null;
    }

    /** `Throttle.new(config:, **params, &block)`: refuses unknown options
        with the ArgumentError message, as `ThrottleParams.new` does. */
    static method New(config: Config, key: string, limit: int, period: int, options: Options, block: nat)
      returns (r: Result<Throttle, string>)
      ensures var p := Params.New(config, key, limit, period, options);
        && (p.Failure? ==> r.Failure? && r.error == p.error)
        && (p.Success? ==> r.Success? && fresh(r.value) && r.value.params == p.value && r.value.config == config
                           && r.value.block == block && r.value.redis == null && r.value.Valid())
    {
      var p := Params.New(config, key, limit, period, options);
      if p.Failure? {
        return Failure(p.error);
      }
      var t := new Throttle(config, p.value, block);
      return Success(t);
    }

    /** `redis`: creates the wrapper once, over `Target`, and keeps it. */
    method Client(dialed: Server) returns (w: Redis)
      requires Valid() && dialed.Valid() && (config.redis != null ==> config.redis.Valid())
      modifies this`redis
      ensures Valid() && w == redis && w.redis == old(Target(dialed)) && Target(dialed) == old(Target(dialed))
      ensures old(redis) != null ==> w == old(redis)
      ensures old(redis) == null ==> fresh(w)
      ensures w.Model() == old(Model(dialed))
    {
      if redis == null {
        var target := if config.redis != null then config.redis else dialed;
        redis := new Redis(target);
      }
      w := redis;
    }

    /** `v.call(create_state(count:, ttl:)) if v.respond_to?(:call)`: user
        code run on the connection's clock. */
    method Call(w: Redis, v: Value, args: Args, code: Code) returns (raised: Option<string>, steps: seq<Step>)
      requires w.Valid()
      modifies w.redis
      ensures w.Valid()
      ensures var n := Engine.Call(old(w.Model()), v, args, code);
        w.Model() == n.conn && steps == n.steps && raised == n.raised
    {
      if !v.RespondsToCall() {
        return None, [];
      }
      var d := RunCode(w.redis, code, v.id, args);
      steps := [Notified(v.id, args, d.outcome)];
      raised := if d.outcome.Raised? then Some(d.outcome.message) else None;
    }

    /** The two callback lines of `wait_for_interval`: the config's
        callback, then the throttle's, unless the first raises. */
    method Notify(w: Redis, configHook: Value, hook: Value, args: Args, code: Code)
      returns (raised: Option<string>, steps: seq<Step>)
      requires w.Valid()
      modifies w.redis
      ensures w.Valid()
      ensures var n := Engine.Notify(old(w.Model()), configHook, hook, args, code);
        w.Model() == n.conn && steps == n.steps && raised == n.raised
    {
      var s1, s2;
      raised, s1 := Call(w, configHook, args, code);
      if raised.Some? {
        return raised, s1;
      }
      raised, s2 := Call(w, hook, args, code);
      steps := s1 + s2;
    }

    /** `wait_for_interval(count)`, over the wrapper. */
    method WaitForInterval(w: Redis, count: int, code: Code) returns (broke: Option<string>, steps: seq<Step>)
      requires Valid() && w == redis
      modifies w, w.redis
      ensures Valid()
      ensures var i := Engine.WaitForInterval(old(w.Model()), Surface(), count, code);
        && steps == i.Steps() && w.Model() == i.Conn()
        && (broke.Some? <==> i.Broke?) && (i.Broke? ==> broke.value == i.message)
    {
      ghost var c0 := w.Model();
      var sf := Surface();
      var key := RedisKey(params);
      var t1 := w.Ttl(key);
      steps := [Read(t1)];
      if t1.Negative() {
        return None, steps;
      }
      var args := sf.HookArgs(count, t1);
      var raised, notes := Notify(w, config.onThrottled, OnThrottled(params), args, code);
      steps := steps + notes;
      if raised.Some? {
        return raised, steps;
      }
      var t2 := w.Ttl(key);
      steps := steps + [Read(t2)];
      if t2.Negative() {
        return None, steps;
      }
      w.redis.Elapse(t2.millis);
      steps := steps + [Slept(t2)];
      broke := None;
    }

    /** `throttle`: the block alone when limiting is off; otherwise count,
        run the block within the limit, or wait and go round again. */
    method Throttle(dialed: Server, code: Code) returns (outcome: Outcome, steps: seq<Step>)
      requires Valid() && dialed.Valid() && (config.redis != null ==> config.redis.Valid())
      requires config.noLimit || params.limit >= 1
      modifies this, redis, Target(dialed)
      ensures Valid() && Target(dialed) == old(Target(dialed))
      ensures var r := Engine.Throttle(old(Model(dialed)), Surface(), config.noLimit, code);
        && r.Finished? && outcome == r.outcome && steps == r.steps && Model(dialed) == r.conn
      ensures config.noLimit ==> redis == old(redis)
    {
      var sf := Surface();
      if config.noLimit {
        var target := if redis != null then redis.redis else if config.redis != null then config.redis else dialed;
        var args := sf.BypassArgs();
        var d := RunCode(target, code, block, args);
        return d.outcome, [Yielded(args, d.outcome)];
      }
      outcome, steps := LimitedThrottle(dialed, code, sf);
    }

    /** One pass of the `loop` of `throttle`: count, then run the block
        within the limit, or wait; `finished` says how the call ended if it
        did. */
    method Pass(w: Redis, code: Code, sf: Engine.Surface) returns (finished: Option<Outcome>, steps: seq<Step>)
      requires Valid() && w == redis && sf == Surface()
      modifies w, w.redis
      ensures Valid()
      ensures var r := Round(old(w.Model()), sf, code);
        && w.Model() == r.conn && steps == r.steps
        && (finished.Some? <==> r.Finished?) && (r.Finished? ==> finished.value == r.outcome)
    {
      var count, second := w.Increment(sf.storeKey, sf.period);
      if count <= sf.limit {
        var args := sf.BlockArgs(count, second);
        var d := RunCode(w.redis, code, sf.block, args);
        return Some(d.outcome), [Counted(count, second), Yielded(args, d.outcome)];
      }
      var broke, more := WaitForInterval(w, count, code);
      steps := [Counted(count, second)] + more;
      finished := if broke.Some? then Some(Raised(broke.value)) else None;
    }

    /** The `loop` of `throttle`, over the wrapper `Client` returns. */
    method LimitedThrottle(dialed: Server, code: Code, sf: Engine.Surface) returns (outcome: Outcome, steps: seq<Step>)
      requires Valid() && dialed.Valid() && (config.redis != null ==> config.redis.Valid())
      requires params.limit >= 1 && sf == Surface()
      modifies this, redis, Target(dialed)
      ensures Valid() && Target(dialed) == old(Target(dialed))
      ensures var r := Loop(old(Model(dialed)), sf, code, 2);
        && r.Finished? && outcome == r.outcome && steps == r.steps && Model(dialed) == r.conn
    {
      var w := Client(dialed);
      outcome, steps := LoopOver(w, code, sf);
    }

    /** `loop do ... end`: passes until one finishes, which the second
        always does. */
    method LoopOver(w: Redis, code: Code, sf: Engine.Surface) returns (outcome: Outcome, steps: seq<Step>)
      requires Valid() && w == redis && params.limit >= 1 && sf == Surface()
      modifies w, w.redis
      ensures Valid()
      ensures var r := Loop(old(w.Model()), sf, code, 2);
        && r.Finished? && outcome == r.outcome && steps == r.steps && w.Model() == r.conn
    {
      ghost var c0 := w.Model();
      EngineLaws.LoopSettles(c0, sf, code, 2);
      ghost var rounds: nat := 0;
      steps := [];
      while true
        invariant Valid() && w == redis
        invariant rounds <= 1 && Loop(c0, sf, code, 2) == Prepend(steps, Loop(w.Model(), sf, code, 2 - rounds))
        invariant Loop(c0, sf, code, 2).Finished?
        decreases 2 - rounds
      {
        ghost var cur := w.Model();
        var finished, more := Pass(w, code, sf);
        EngineLaws.LoopRound(cur, sf, code, 1 - rounds);
        EngineLaws.PrependTwice(steps, more, Loop(w.Model(), sf, code, 1 - rounds));
        steps := steps + more;
        if finished.Some? {
          return finished.value, steps;
        }
        rounds := rounds + 1;
      }
    }
  }
}
