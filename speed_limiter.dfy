/** The module-level `SpeedLimiter.throttle` and the process-wide state it
    keeps: the config, the Redis connection and the cached answer of the
    version probe, each created on first use. The loop talks to the Redis
    connection directly, without the wrapper class, and hands user code the
    count, or the TTL and the key. */
module SpeedLimiter {
  import opened Base
  import opened Store
  import opened Configuration
  import opened RedisWrapper
  import opened Engine
  import EngineLaws

  /** The singleton `SpeedLimiter` module: `@config`, `@redis` and
      `@supports_expire_nx`, none of them set before first use. */
  class Limiter {
    var config: Config?
    var redis: Server?
    var supportsNx: Option<bool>

    constructor ()
      ensures config == null && redis == null && supportsNx == None
    {
      config := null;
      redis := null;
      supportsNx := None;
    }

    /** The prefix, the config callback and `no_limit?` as the next call
        finds them: a config not yet created will be the default one. */
    function Prefix(): string
      reads this, config
    {
      if config == null then DefaultPrefix else config.prefix
    }

    function ConfigHook(): Value
      reads this, config
    {
      if config == null then Nil else config.onThrottled
    }

    predicate NoLimit()
      reads this, config
    {
      config != null && config.noLimit
    }

    /** The connection the loop talks to, or will: the one already kept,
        else the config's, else a new one to the config's URL (`dialed`). */
    function Target(dialed: Server): Server
      reads this, config
    {
      if redis != null then redis else if config != null && config.redis != null then config.redis else dialed
    }

    function Model(dialed: Server): Conn
      reads this, config, Target(dialed)
    {
      Conn(Target(dialed).Snap(), supportsNx)
    }

    /** The connection is well formed and the cached probe answer, if any,
        is the right one for it; it is never cached before `@redis` is set,
        nor `@redis` set before `@config`. */
    ghost predicate Ready(dialed: Server)
      reads this, config, Target(dialed)
    {
      && Target(dialed).Valid() && Model(dialed).Coherent()
      && (supportsNx.Some? ==> redis != null) && (redis != null ==> config != null)
    }

    /** What one call of `throttle(key, limit:, period:, on_throttled:)`
        with a block works with: the prefixed key, the config's callback,
        and user code called with bare values. */
    function Surface(key: string, limit: int, period: int, onThrottled: Value, block: nat): Engine.Surface
      reads this, config
    {
      Engine.Surface(Prefix() + ":" + key, limit, period, Some(ConfigHook()), onThrottled, block, ByCount)
    }

    /** `config`: the default config, created once and kept. */
    method Config() returns (c: Config)
      modifies this`config
      ensures config == c
      ensures old(config) != null ==> c == old(config)
      ensures old(config) == null ==> fresh(c) && c.redisUrl == DefaultRedisUrl && c.redis == null
                                      && !c.noLimit && c.prefix == DefaultPrefix && c.onThrottled == Nil
    {
      if config == null {
        config := new Configuration.Config();
      }
      c := config;
    }

    /** `redis`: the config's connection, else a new one, created once and kept. */
    method Redis(dialed: Server) returns (r: Server)
      modifies this`config, this`redis
      ensures r == redis && r == old(Target(dialed)) && Target(dialed) == r && config != null
      ensures old(config) != null ==> config == old(config)
      ensures fresh(config) || config == old(config)
      ensures Prefix() == old(Prefix()) && ConfigHook() == old(ConfigHook()) && NoLimit() == old(NoLimit())
    {
      var c := Config();
      if redis == null {
        redis := if c.redis != null then c.redis else dialed;
      }
      r := redis;
    }

    /** `supports_expire_nx?`: asks the server's version once and keeps the answer. */
    method SupportsExpireNx(dialed: Server) returns (b: bool)
      requires Ready(dialed)
      modifies this, Target(dialed)
      ensures Ready(dialed) && Target(dialed) == old(Target(dialed)) && redis == old(Target(dialed))
      ensures (Model(dialed), b) == old(Model(dialed)).Probe()
      ensures Prefix() == old(Prefix()) && ConfigHook() == old(ConfigHook()) && NoLimit() == old(NoLimit())
    {
      var r := Redis(dialed);
      if supportsNx.Some? {
        return supportsNx.value;
      }
      var version := r.Info();
      b := AtLeast(version, NxVersion);
      supportsNx := Some(b);
    }

    /** `ttl(key)`: PTTL as Float seconds. */
    method Ttl(key: string, dialed: Server) returns (t: Num)
      requires Ready(dialed)
      modifies this, Target(dialed)
      ensures Ready(dialed) && Target(dialed) == old(Target(dialed)) && redis == old(Target(dialed))
      ensures (Model(dialed), t) == old(Model(dialed)).Ttl(key)
      ensures Prefix() == old(Prefix()) && ConfigHook() == old(ConfigHook()) && NoLimit() == old(NoLimit())
    {
      var r := Redis(dialed);
      var ms := r.Pttl(key);
      t := Float(ms);
    }

    /** `increment(key, period)`: the same two protocols as the wrapper
        class; only the count is returned. */
    method Increment(key: string, period: int, dialed: Server) returns (count: int)
      requires Ready(dialed)
      modifies this, Target(dialed)
      ensures Ready(dialed) && Target(dialed) == old(Target(dialed)) && redis == old(Target(dialed))
      ensures var i := old(Model(dialed)).Increment(key, period); Model(dialed) == i.0 && count == i.1
      ensures Prefix() == old(Prefix()) && ConfigHook() == old(ConfigHook()) && NoLimit() == old(NoLimit())
    {
      var nx := SupportsExpireNx(dialed);
      var r := redis;
      if nx {
        count := r.IncrBy(key, 1);
        var _ := r.Expire(key, period, true);
      } else {
        count := r.IncrBy(key, 1);
        var ttl := r.Ttl(key);
        if ttl < 0 {
          var _ := r.Expire(key, period, false);
        }
      }
    }

    /** `wait_for_interval(key, on_throttled)`: the same wait as the class's,
        with the callbacks given the TTL and the key. `sf` and `count` name
        the call it waits for. */
    method WaitForInterval(key: string, onThrottled: Value, dialed: Server, code: Code,
                           ghost sf: Engine.Surface, ghost count: int)
      returns (broke: Option<string>, ghost steps: seq<Step>)
      requires Ready(dialed) && redis != null
      requires sf.storeKey == key && sf.hook == onThrottled && sf.configHook == Some(ConfigHook()) && sf.style == ByCount
      modifies this, Target(dialed)
      ensures Ready(dialed) && Target(dialed) == old(Target(dialed)) && redis == old(redis)
      ensures Prefix() == old(Prefix()) && ConfigHook() == old(ConfigHook()) && NoLimit() == old(NoLimit())
      ensures var i := Engine.WaitForInterval(old(Model(dialed)), sf, count, code);
        && steps == i.Steps() && Model(dialed) == i.Conn()
        && (broke.Some? <==> i.Broke?) && (i.Broke? ==> broke.value == i.message)
    {
      ghost var c0 := Model(dialed);
      var t1 := Ttl(key, dialed);
      assert (Model(dialed), t1) == c0.Ttl(key);
      steps := [Read(t1)];
      if t1.Negative() {
        return None, steps;
      }
      var args := WithTtlKey(t1, key);
      assert args == sf.HookArgs(count, t1);
      var raised, notes := Notify(config.onThrottled, onThrottled, args, code, dialed);
      steps := steps + notes;
      if raised.Some? {
        return raised, steps;
      }
      var t2 := Ttl(key, dialed);
      steps := steps + [Read(t2)];
      if t2.Negative() {
        return None, steps;
      }
      redis.Elapse(t2.millis);
      steps := steps + [Slept(t2)];
      broke := None;
    }

    /** The two callback lines of `wait_for_interval`: the config's
        callback, then the given one, unless the first raises. */
    method Notify(configHook: Value, hook: Value, args: Args, code: Code, dialed: Server)
      returns (raised: Option<string>, ghost steps: seq<Step>)
      requires Ready(dialed) && redis != null
      modifies Target(dialed)
      ensures Ready(dialed) && Target(dialed) == old(Target(dialed))
      ensures var n := Engine.Notify(old(Model(dialed)), configHook, hook, args, code);
        Model(dialed) == n.conn && steps == n.steps && raised == n.raised
    {
      ghost var s1, s2;
      raised, s1 := Call(configHook, args, code, dialed);
      if raised.Some? {
        return raised, s1;
      }
      raised, s2 := Call(hook, args, code, dialed);
      steps := s1 + s2;
    }

    /** `v.call(ttl, key) if v.respond_to?(:call)`: user code run on the
        connection's clock. */
    method Call(v: Value, args: Args, code: Code, dialed: Server) returns (raised: Option<string>, ghost steps: seq<Step>)
      requires Ready(dialed) && redis != null
      modifies Target(dialed)
      ensures Ready(dialed) && Target(dialed) == old(Target(dialed))
      ensures var n := Engine.Call(old(Model(dialed)), v, args, code);
        Model(dialed) == n.conn && steps == n.steps && raised == n.raised
    {
      if !v.RespondsToCall() {
        return None, [];
      }
      var d := RunCode(redis, code, v.id, args);
      steps := [Notified(v.id, args, d.outcome)];
      raised := if d.outcome.Raised? then Some(d.outcome.message) else None;
    }

    /** `throttle(key, limit:, period:, on_throttled:) { |count| ... }`: the
        block alone when limiting is off; otherwise the loop of
        `LimitedThrottle`. */
    method Throttle(key: string, limit: int, period: int, onThrottled: Value, block: nat, code: Code, dialed: Server)
      returns (outcome: Outcome, ghost steps: seq<Step>)
      requires Ready(dialed)
      requires NoLimit() || limit >= 1
      modifies this, Target(dialed)
      ensures Ready(dialed) && Target(dialed) == old(Target(dialed))
      ensures var r := Engine.Throttle(old(Model(dialed)), old(Surface(key, limit, period, onThrottled, block)),
                                       old(NoLimit()), code);
        && r.Finished? && outcome == r.outcome && steps == r.steps && Model(dialed) == r.conn
      ensures old(NoLimit()) ==> redis == old(redis) && supportsNx == old(supportsNx)
    {
      var c := Config();
      if c.noLimit {
        var target := if redis != null then redis else if c.redis != null then c.redis else dialed;
        var args := WithNothing;
        var d := RunCode(target, code, block, args);
        return d.outcome, [Yielded(args, d.outcome)];
      }
      ghost var sf := Surface(key, limit, period, onThrottled, block);
      outcome, steps := LimitedThrottle(c.prefix + ":" + key, limit, period, onThrottled, block, code, dialed, sf);
    }

    /** One pass of the module's `loop`: count, then run the block within
        the limit, or wait; `finished` says how the call ended if it did. */
    method Pass(keyName: string, limit: int, period: int, onThrottled: Value, block: nat, code: Code,
                dialed: Server, ghost sf: Engine.Surface)
      returns (finished: Option<Outcome>, ghost steps: seq<Step>)
      requires Ready(dialed)
      requires sf == Engine.Surface(keyName, limit, period, Some(ConfigHook()), onThrottled, block, ByCount)
      modifies this, Target(dialed)
      ensures Ready(dialed) && Target(dialed) == old(Target(dialed))
      ensures sf == Engine.Surface(keyName, limit, period, Some(ConfigHook()), onThrottled, block, ByCount)
      ensures var r := Round(old(Model(dialed)), sf, code);
        && Model(dialed) == r.conn && steps == r.steps
        && (finished.Some? <==> r.Finished?) && (r.Finished? ==> finished.value == r.outcome)
    {
      ghost var cur := Model(dialed);
      var count := Increment(keyName, period, dialed);
      ghost var second := cur.Increment(keyName, period).2;
      if count <= limit {
        var args := WithCount(count);
        var d := RunCode(redis, code, block, args);
        return Some(d.outcome), [Counted(count, second), Yielded(args, d.outcome)];
      }
      var broke, more := WaitForInterval(keyName, onThrottled, dialed, code, sf, count);
      steps := [Counted(count, second)] + more;
      finished := if broke.Some? then Some(Raised(broke.value)) else None;
    }

    /** The `loop` of `throttle`, over the prefixed key. */
    method LimitedThrottle(keyName: string, limit: int, period: int, onThrottled: Value, block: nat, code: Code,
                           dialed: Server, ghost sf: Engine.Surface)
      returns (outcome: Outcome, ghost steps: seq<Step>)
      requires Ready(dialed) && limit >= 1
      requires sf == Engine.Surface(keyName, limit, period, Some(ConfigHook()), onThrottled, block, ByCount)
      modifies this, Target(dialed)
      ensures Ready(dialed) && Target(dialed) == old(Target(dialed))
      ensures var r := Loop(old(Model(dialed)), sf, code, 2);
        && r.Finished? && outcome == r.outcome && steps == r.steps && Model(dialed) == r.conn
    {
      ghost var c0 := Model(dialed);
      EngineLaws.LoopSettles(c0, sf, code, 2);
      ghost var rounds: nat := 0;
      steps := [];
      while true
        invariant Ready(dialed) && Target(dialed) == old(Target(dialed))
        invariant sf == Engine.Surface(keyName, limit, period, Some(ConfigHook()), onThrottled, block, ByCount)
        invariant rounds <= 1 && Loop(c0, sf, code, 2) == Prepend(steps, Loop(Model(dialed), sf, code, 2 - rounds))
        invariant Loop(c0, sf, code, 2).Finished?
        decreases 2 - rounds
      {
        ghost var cur := Model(dialed);
        var finished, more := Pass(keyName, limit, period, onThrottled, block, code, dialed, sf);
        EngineLaws.LoopRound(cur, sf, code, 1 - rounds);
        EngineLaws.PrependTwice(steps, more, Loop(Model(dialed), sf, code, 1 - rounds));
        steps := steps + more;
        if finished.Some? {
          return finished.value, steps;
        }
        rounds := rounds + 1;
      }
    }
  }
}
