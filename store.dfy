/** The shared counter store the limiter talks to: a Redis server reduced to
    the commands the limiter sends (INCRBY, EXPIRE [NX], TTL, PTTL, INFO), a
    logical clock in milliseconds on which keys expire, and the log of the
    commands it has answered. */
module Store {
  import opened Base

  /** A counter and its absolute expiry time in ms, if it has one. */
  datatype Entry = Entry(count: int, expiresAt: Option<int>)

  datatype Command =
    | IncrBy(key: string, amount: int)
    | Expire(key: string, seconds: int, nx: bool)
    | Ttl(key: string)
    | Pttl(key: string)
    | Info

  datatype Reply = Integer(n: int) | Version(segments: seq<nat>)

  datatype Event = Sent(command: Command, reply: Reply)

  /** Number of INCRBY commands in a log. */
  function Increments(log: seq<Event>): nat
  {
    if log == [] then 0
    else (if log[|log| - 1].command.IncrBy? then 1 else 0) + Increments(log[..|log| - 1])
  }

  lemma {:induction false} IncrementsAppend(a: seq<Event>, b: seq<Event>)
    ensures Increments(a + b) == Increments(a) + Increments(b)
    decreases |b|
  {
    if b != [] {
      assert (a + b)[..|a + b| - 1] == a + b[..|b| - 1];
      assert (a + b)[|a + b| - 1] == b[|b| - 1];
      IncrementsAppend(a, b[..|b| - 1]);
    } else {
      assert a + b == a;
    }
  }

  lemma IncrementsSnoc(log: seq<Event>, e: Event)
    ensures Increments(log + [e]) == Increments(log) + (if e.command.IncrBy? then 1 else 0)
  {
    assert (log + [e])[..|log|] == log;
  }

  predicate Expired(e: Entry, now: int) { e.expiresAt.Some? && e.expiresAt.value <= now }

  /** The server's whole state as a value. */
  datatype Snapshot = Snapshot(data: map<string, Entry>, now: int, version: seq<nat>, log: seq<Event>)
  {
    /** Expired keys are gone: every expiry still stored lies in the future. */
    predicate Live() { forall k :: k in data ==> !Expired(data[k], now) }

    /** The key is absent or carries an expiry, so it is bound to vanish. */
    predicate Bounded(key: string) { key in data ==> data[key].expiresAt.Some? }

    function CountOf(key: string): int { if key in data then data[key].count else 0 }

    function Answer(command: Command, reply: Reply): Snapshot
    {
      this.(log := log + [Sent(command, reply)])
    }

    /** INCRBY: a missing key counts from 0; an existing expiry is kept. */
    function IncrBy(key: string, amount: int): (Snapshot, int)
    {
      var n := CountOf(key) + amount;
      var e := Entry(n, if key in data then data[key].expiresAt else None);
      (this.(data := data[key := e]).Answer(Command.IncrBy(key, amount), Integer(n)), n)
    }

    /** EXPIRE key seconds [NX]: 0 when the key is missing, or when NX is
        given and the key already has an expiry; a time that is not in the
        future deletes the key. */
    function Expire(key: string, seconds: int, nx: bool): (Snapshot, int)
    {
      var cmd := Command.Expire(key, seconds, nx);
      if key !in data || (nx && data[key].expiresAt.Some?) then (Answer(cmd, Integer(0)), 0)
      else if seconds <= 0 then (this.(data := data - {key}).Answer(cmd, Integer(1)), 1)
      else (this.(data := data[key := data[key].(expiresAt := Some(now + seconds * 1000))]).Answer(cmd, Integer(1)), 1)
    }

    /** Remaining life in ms: -2 for a missing key, -1 for a key without expiry. */
    function RemainingMs(key: string): int
    {
      if key !in data then -2
      else if data[key].expiresAt.None? then -1
      else data[key].expiresAt.value - now
    }

    function Pttl(key: string): (Snapshot, int)
    {
      var ms := RemainingMs(key);
      (Answer(Command.Pttl(key), Integer(ms)), ms)
    }

    /** TTL answers in whole seconds, rounded to nearest. */
    function Ttl(key: string): (Snapshot, int)
    {
      var ms := RemainingMs(key);
      var t := if ms < 0 then ms else (ms + 500) / 1000;
      (Answer(Command.Ttl(key), Integer(t)), t)
    }

    function Info(): (Snapshot, seq<nat>)
    {
      (Answer(Command.Info, Version(version)), version)
    }

    /** Time passes: the clock moves on and keys whose expiry is reached vanish. */
    function Elapse(ms: nat): Snapshot
    {
      var t := now + ms;
      this.(now := t, data := map k | k in data && !Expired(data[k], t) :: data[k])
    }
  }

  lemma PttlNegative(s: Snapshot, key: string)
    requires s.Live()
    ensures s.RemainingMs(key) < 0 <==> !(key in s.data && s.data[key].expiresAt.Some?)
    ensures s.RemainingMs(key) != 0
  {
  }

  /** TTL and PTTL agree on whether a key has a pending expiry. */
  lemma TtlSignMatchesPttl(s: Snapshot, key: string)
    requires s.Live()
    ensures s.Ttl(key).1 < 0 <==> s.Pttl(key).1 < 0
  {
  }

  /** Sleeping for the remaining life of a key makes it vanish. */
  lemma ElapseRemaining(s: Snapshot, key: string)
    requires s.RemainingMs(key) >= 0
    ensures key !in s.Elapse(s.RemainingMs(key)).data
  {
  }

  /** Passing time keeps expired keys gone and bounded keys bounded, and never adds a key. */
  lemma ElapseKeeps(s: Snapshot, ms: nat, key: string)
    requires s.Bounded(key)
    ensures s.Elapse(ms).Live() && s.Elapse(ms).Bounded(key)
    ensures s.Elapse(ms).data.Keys <= s.data.Keys
    ensures s.Elapse(ms).log == s.log && s.Elapse(ms).version == s.version
  {
  }

  /** No time passing changes nothing once expired keys are gone. */
  lemma ElapseNothing(s: Snapshot)
    requires s.Live()
    ensures s.Elapse(0) == s
  {
    assert s.Elapse(0).data == s.data;
  }

  /** The Redis server: its keys, its clock and the log of what it answered. */
  class Server {
    var data: map<string, Entry>
    var now: int
    const version: seq<nat>
    var log: seq<Event>

    function Snap(): Snapshot
      reads this
    {
      Snapshot(data, now, version, log)
    }

    ghost predicate Valid()
      reads this
    {
      Snap().Live()
    }

    constructor (version: seq<nat>, now: int)
      ensures Valid() && Snap() == Snapshot(map[], now, version, [])
    {
      this.data := map[];
      this.now := now;
      this.version := version;
      this.log := [];
    }

    method Load(s: Snapshot)
      requires s.version == version
      modifies this
      ensures Snap() == s
    {
      data, now, log := s.data, s.now, s.log;
    }

    method IncrBy(key: string, amount: int) returns (n: int)
      requires Valid()
      modifies this
      ensures Valid() && (Snap(), n) == old(Snap()).IncrBy(key, amount)
    {
      var r := Snap().IncrBy(key, amount);
      Load(r.0);
      n := r.1;
    }

    method Expire(key: string, seconds: int, nx: bool) returns (n: int)
      requires Valid()
      modifies this
      ensures Valid() && (Snap(), n) == old(Snap()).Expire(key, seconds, nx)
    {
      var r := Snap().Expire(key, seconds, nx);
      Load(r.0);
      n := r.1;
    }

    method Ttl(key: string) returns (n: int)
      requires Valid()
      modifies this
      ensures Valid() && (Snap(), n) == old(Snap()).Ttl(key)
    {
      var r := Snap().Ttl(key);
      Load(r.0);
      n := r.1;
    }

    method Pttl(key: string) returns (n: int)
      requires Valid()
      modifies this
      ensures Valid() && (Snap(), n) == old(Snap()).Pttl(key)
    {
      var r := Snap().Pttl(key);
      Load(r.0);
      n := r.1;
    }

    method Info() returns (v: seq<nat>)
      requires Valid()
      modifies this
      ensures Valid() && (Snap(), v) == old(Snap()).Info()
    {
      var r := Snap().Info();
      Load(r.0);
      v := r.1;
    }

    /** The wall clock moves on (a sleep, or user code that takes time). */
    method Elapse(ms: nat)
      requires Valid()
      modifies this
      ensures Valid() && Snap() == old(Snap()).Elapse(ms)
    {
      Load(Snap().Elapse(ms));
    }
  }
}
