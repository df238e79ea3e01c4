/** `SpeedLimiter::Redis`: a wrapper over one Redis connection that counts an
    attempt and makes sure the window expires, by one of two protocols chosen
    from the server's version, which it asks for once. */
module RedisWrapper {
  import opened Base
  import opened Store

  const NxVersion: seq<nat> := [7, 0, 0]

  /** Segment `i` of a version, 0 past its end. */
  function Segment(v: seq<nat>, i: nat): nat { if i < |v| then v[i] else 0 }

  function Rest(v: seq<nat>): seq<nat> { if v == [] then [] else v[1..] }

  /** `Gem::Version.new(v) >= Gem::Version.new(w)` for numeric versions:
      segment by segment, a missing segment counting as 0. */
  predicate AtLeast(v: seq<nat>, w: seq<nat>)
    decreases |v| + |w|
  {
    if v == [] && w == [] then true
    else if Segment(v, 0) != Segment(w, 0) then Segment(v, 0) > Segment(w, 0)
    else AtLeast(Rest(v), Rest(w))
  }

  lemma {:induction false} AtLeastZeros(v: seq<nat>, w: seq<nat>)
    requires forall i :: 0 <= i < |w| ==> w[i] == 0
    ensures AtLeast(v, w)
    decreases |v| + |w|
  {
    if !(v == [] && w == []) && Segment(v, 0) == Segment(w, 0) {
      AtLeastZeros(Rest(v), Rest(w));
    }
  }

  /** A server supports `EXPIRE ... NX` exactly when its major version is 7 or more. */
  lemma SupportsNxIff(v: seq<nat>)
    ensures AtLeast(v, NxVersion) <==> Segment(v, 0) >= 7
  {
    if Segment(v, 0) == 7 {
      AtLeastZeros(Rest(v), [0, 0]);
      assert Rest(NxVersion) == [0, 0];
    }
  }

  /** A server as seen through one wrapper: its state and the cached answer
      of the capability probe. */
  datatype Conn = Conn(store: Snapshot, nx: Option<bool>)
  {
    /** A cached answer is the right one. */
    predicate Coherent() { nx.Some? ==> nx.value == AtLeast(store.version, NxVersion) }

    /** `supports_expire_nx?`: answers from the cache, or asks INFO once and caches. */
    function Probe(): (Conn, bool)
    {
      match nx
      case Some(b) => (this, b)
      case None =>
        var r := store.Info();
        var b := AtLeast(r.1, NxVersion);
        (Conn(r.0, Some(b)), b)
    }

    /** `increment(key, period)`: the new count and the raw second reply of
        the round trip. */
    function Increment(key: string, period: int): (Conn, int, int)
    {
      var p := Probe();
      var c := p.0;
      var i := c.store.IncrBy(key, 1);
      if p.1 then
        var e := i.0.Expire(key, period, true);
        (c.(store := e.0), i.1, e.1)
      else
        var t := i.0.Ttl(key);
        var s := if t.1 < 0 then t.0.Expire(key, period, false).0 else t.0;
        (c.(store := s), i.1, t.1)
    }

    /** `ttl(key)`: PTTL converted to Float seconds. */
    function Ttl(key: string): (r: (Conn, Num))
      ensures r.1.Float? && r.0.nx == nx
      ensures r.1.Negative() <==> store.RemainingMs(key) < 0
      ensures r.1.Seconds() == store.RemainingMs(key) as real / 1000.0
    {
      var p := store.Pttl(key);
      (this.(store := p.0), Float(p.1))
    }
  }

  /** The probe asks the server at most once: a second probe sends nothing
      and gives the same answer, which is the version test. */
  lemma ProbeOnce(c: Conn)
    requires c.Coherent()
    ensures var p := c.Probe();
      && p.1 == AtLeast(c.store.version, NxVersion)
      && p.0.Coherent() && p.0.nx == Some(p.1)
      && p.0.store.data == c.store.data && p.0.store.now == c.store.now
      && p.0.store.log == c.store.log + (if c.nx.Some? then [] else [Sent(Info, Version(c.store.version))])
      && p.0.Probe() == (p.0, p.1)
  {
  }

  /** Every increment adds exactly one to the stored count, answers the new
      count, touches no other key and leaves the clock alone. */
  lemma IncrementCounts(c: Conn, key: string, period: int)
    ensures var r := c.Increment(key, period);
      && r.1 == c.store.CountOf(key) + 1
      && (key in r.0.store.data ==> r.0.store.data[key].count == r.1)
      && r.0.store.data - {key} == c.store.data - {key}
      && r.0.store.now == c.store.now && r.0.store.version == c.store.version
  {
  }

  /** Every increment sends exactly one INCRBY. */
  lemma IncrementSendsOneIncrBy(c: Conn, key: string, period: int)
    ensures Increments(c.Increment(key, period).0.store.log) == Increments(c.store.log) + 1
  {
    var p := c.Probe();
    var log0 := p.0.store.log;
    assert Increments(log0) == Increments(c.store.log) by {
      if c.nx.None? {
        IncrementsSnoc(c.store.log, Sent(Info, Version(c.store.version)));
      }
    }
    var i := p.0.store.IncrBy(key, 1);
    var log1 := i.0.log;
    assert log1 == log0 + [Sent(IncrBy(key, 1), Integer(i.1))];
    IncrementsSnoc(log0, Sent(IncrBy(key, 1), Integer(i.1)));
    var r := c.Increment(key, period);
    if p.1 {
      var e := i.0.Expire(key, period, true);
      assert r.0.store.log == log1 + [Sent(Expire(key, period, true), Integer(e.1))];
      IncrementsSnoc(log1, Sent(Expire(key, period, true), Integer(e.1)));
    } else {
      var t := i.0.Ttl(key);
      var log2 := t.0.log;
      assert log2 == log1 + [Sent(Ttl(key), Integer(t.1))];
      IncrementsSnoc(log1, Sent(Ttl(key), Integer(t.1)));
      if t.1 < 0 {
        var e := t.0.Expire(key, period, false);
        assert r.0.store.log == log2 + [Sent(Expire(key, period, false), Integer(e.1))];
        IncrementsSnoc(log2, Sent(Expire(key, period, false), Integer(e.1)));
      }
    }
  }

  /** The NX path: INCRBY then EXPIRE NX; the second reply is EXPIRE's 0 or 1;
      an existing expiry is left as it was, a missing one is set to `period`. */
  lemma IncrementWithNx(c: Conn, key: string, period: int)
    requires c.Coherent() && AtLeast(c.store.version, NxVersion)
    ensures var p := c.Probe().0.store;
      var r := c.Increment(key, period);
      var n := c.store.CountOf(key) + 1;
      && r.0.store.log == p.log + [Sent(IncrBy(key, 1), Integer(n)), Sent(Expire(key, period, true), Integer(r.2))]
      && (key in c.store.data && c.store.data[key].expiresAt.Some? ==>
            r.2 == 0 && key in r.0.store.data && r.0.store.data[key].expiresAt == c.store.data[key].expiresAt)
      && (!(key in c.store.data && c.store.data[key].expiresAt.Some?) ==>
            r.2 == 1 && (if period > 0 then key in r.0.store.data && r.0.store.data[key].expiresAt == Some(c.store.now + period * 1000)
                         else key !in r.0.store.data))
  {
  }

  /** The older path: INCRBY then TTL, and EXPIRE exactly when that TTL is
      negative; the second reply is that TTL, negative exactly when the key
      had no expiry before. */
  lemma IncrementWithoutNx(c: Conn, key: string, period: int)
    requires c.Coherent() && !AtLeast(c.store.version, NxVersion) && c.store.Live()
    ensures var p := c.Probe().0.store;
      var r := c.Increment(key, period);
      var n := c.store.CountOf(key) + 1;
      var head := p.log + [Sent(IncrBy(key, 1), Integer(n)), Sent(Ttl(key), Integer(r.2))];
      && (r.2 < 0 <==> !(key in c.store.data && c.store.data[key].expiresAt.Some?))
      && (r.2 < 0 ==> r.0.store.log == head + [Sent(Expire(key, period, false), Integer(1))])
      && (r.2 < 0 ==> if period > 0 then key in r.0.store.data && r.0.store.data[key].expiresAt == Some(c.store.now + period * 1000)
                      else key !in r.0.store.data)
      && (r.2 >= 0 ==> r.0.store.log == head && r.0.store.data[key].expiresAt == c.store.data[key].expiresAt)
  {
  }

  /** With no other caller in between, after an increment the key is gone or
      carries an expiry, on either path, and with a period of a second or
      more it is there and carries one; expired keys stay gone. */
  lemma IncrementBounds(c: Conn, key: string, period: int)
    requires c.store.Live()
    ensures var r := c.Increment(key, period);
      && r.0.store.Live() && r.0.store.Bounded(key) && (c.Coherent() ==> r.0.Coherent())
      && (period >= 1 ==> key in r.0.store.data && r.0.store.data[key].expiresAt.Some?)
  {
  }

  /** A window opened at the current time and counted `k` times so far:
      no key when `k` is 0, otherwise the count and an expiry one period away. */
  predicate FreshWindow(s: Snapshot, key: string, k: nat, period: int)
  {
    if k == 0 then key !in s.data else key in s.data && s.data[key] == Entry(k, Some(s.now + period * 1000))
  }

  /** Inside a fresh window either path counts one more and leaves the
      window's expiry where it was. */
  lemma IncrementInWindow(c: Conn, key: string, period: int, k: nat)
    requires period >= 1 && FreshWindow(c.store, key, k, period)
    ensures var r := c.Increment(key, period);
      r.1 == k + 1 && FreshWindow(r.0.store, key, k + 1, period) && r.0.store.now == c.store.now
      && r.0.store.data - {key} == c.store.data - {key}
  {
    IncrementCounts(c, key, period);
  }

  /** The wrapper: the Redis connection and, once probed, the cached answer. */
  class Redis {
    const redis: Server
    var nx: Option<bool>

    function Model(): Conn
      reads this, redis
    {
      Conn(redis.Snap(), nx)
    }

    ghost predicate Valid()
      reads this, redis
    {
      redis.Valid() && Model().Coherent()
    }

    constructor (redis: Server)
      requires redis.Valid()
      ensures this.redis == redis && nx == None && Valid()
    {
      this.redis := redis;
      nx := None;
    }

    method Ttl(key: string) returns (t: Num)
      requires Valid()
      modifies redis
      ensures Valid() && (Model(), t) == old(Model()).Ttl(key)
    {
      var ms := redis.Pttl(key);
      t := Float(ms);
    }

    method SupportsExpireNx() returns (b: bool)
      requires Valid()
      modifies this, redis
      ensures Valid() && (Model(), b) == old(Model()).Probe()
    {
      if nx.Some? {
        return nx.value;
      }
      var version := redis.Info();
      b := AtLeast(version, NxVersion);
      nx := Some(b);
    }

    method Increment(key: string, period: int) returns (count: int, second: int)
      requires Valid()
      modifies this, redis
      ensures Valid() && (Model(), count, second) == old(Model()).Increment(key, period)
    {
      var nx := SupportsExpireNx();
      if nx {
        count := redis.IncrBy(key, 1);
        second := redis.Expire(key, period, true);
      } else {
        count := redis.IncrBy(key, 1);
        second := redis.Ttl(key);
        if second < 0 {
          var _ := redis.Expire(key, period, false);
        }
      }
    }
  }
}
