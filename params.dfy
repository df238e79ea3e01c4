/** `SpeedLimiter::ThrottleParams`: the arguments of one throttle, checked
    against the known option names once, at construction. */
module Params {
  import opened Base
  import opened Text
  import opened Configuration

  const KnownOptions: seq<string> := ["on_throttled", "retry"]

  /** The option hash, in the order it was written. A Ruby keyword hash has
      each key at most once (`Distinct`); on a list with a repeated name
      `Lookup` takes the first binding. */
  type Options = seq<(string, Value)>

  predicate Distinct(options: Options)
  {
    forall i, j :: 0 <= i < j < |options| ==> options[i].0 != options[j].0
  }

  datatype ThrottleParams = ThrottleParams(config: Config, key: string, limit: int, period: int, options: Options)

  function Keys(options: Options): set<string>
  {
    set i | 0 <= i < |options| :: options[i].0
  }

  /** `options.keys - KNOWN_OPTIONS`, in order. */
  function UnknownOptions(options: Options): seq<string>
  {
    if options == [] then []
    else (if options[0].0 in KnownOptions then [] else [options[0].0]) + UnknownOptions(options[1..])
  }

  /** The unknown names are exactly the keys that are not known options. */
  lemma {:induction false} UnknownOptionsAre(options: Options)
    ensures forall x :: x in UnknownOptions(options) <==> x in Keys(options) && x !in KnownOptions
  {
    if options != [] {
      UnknownOptionsAre(options[1..]);
      assert Keys(options) == {options[0].0} + Keys(options[1..]) by {
        forall x | x in Keys(options) ensures x in {options[0].0} + Keys(options[1..]) {
          var i :| 0 <= i < |options| && options[i].0 == x;
          if i > 0 { assert options[1..][i - 1].0 == x; }
        }
        forall x | x in Keys(options[1..]) ensures x in Keys(options) {
          var i :| 0 <= i < |options[1..]| && options[1..][i].0 == x;
          assert options[i + 1].0 == x;
        }
      }
    }
  }

  /** `ThrottleParams.new`: fails with the ArgumentError message exactly when
      some option name is neither `on_throttled` nor `retry`. */
  function New(config: Config, key: string, limit: int, period: int, options: Options): (r: Result<ThrottleParams, string>)
    ensures r.Failure? <==> exists i :: 0 <= i < |options| && options[i].0 !in KnownOptions
    ensures r.Failure? ==> r.error == "Unknown options: " + Join(UnknownOptions(options), ", ")
    ensures r.Success? ==> r.value.config == config && r.value.key == key && r.value.limit == limit
                           && r.value.period == period && r.value.options == options
  {
    UnknownOptionsAre(options);
    assert (exists i :: 0 <= i < |options| && options[i].0 !in KnownOptions)
           <==> exists x :: x in Keys(options) && x !in KnownOptions;
    var unknown := UnknownOptions(options);
    if |unknown| > 0 then
      assert unknown[0] in unknown;
      Failure("Unknown options: " + Join(unknown, ", "))
    else
      Success(ThrottleParams(config, key, limit, period, options))
  }

  /** `@options[name]`: the value stored under the name, `nil` when absent. */
  function Lookup(options: Options, name: string): Value
  {
    if options == [] then Nil
    else if options[0].0 == name then options[0].1
    else Lookup(options[1..], name)
  }

  lemma {:induction false} LookupFinds(options: Options, name: string, i: nat)
    requires i < |options| && options[i].0 == name
    requires forall j :: 0 <= j < i ==> options[j].0 != name
    ensures Lookup(options, name) == options[i].1
  {
    if i > 0 {
      LookupFinds(options[1..], name, i - 1);
    }
  }

  /** On a hash, reading an option gives the value stored under its name. */
  lemma LookupDistinct(options: Options, name: string, i: nat)
    requires Distinct(options)
    requires i < |options| && options[i].0 == name
    ensures Lookup(options, name) == options[i].1
  {
    LookupFinds(options, name, i);
  }

  lemma {:induction false} LookupAbsent(options: Options, name: string)
    requires name !in Keys(options)
    ensures Lookup(options, name) == Nil
  {
    if options != [] {
      assert options[0].0 in Keys(options);
      assert Keys(options[1..]) <= Keys(options) by {
        forall x | x in Keys(options[1..]) ensures x in Keys(options) {
          var i :| 0 <= i < |options[1..]| && options[1..][i].0 == x;
          assert options[i + 1].0 == x;
        }
      }
      LookupAbsent(options[1..], name);
    }
  }

  function OnThrottled(p: ThrottleParams): Value { Lookup(p.options, "on_throttled") }

  function Retry(p: ThrottleParams): Value { Lookup(p.options, "retry") }

  /** The namespaced store key, read from the config's current prefix. */
  function RedisKey(p: ThrottleParams): (k: string)
    reads p.config
    ensures |k| == |p.config.prefix| + 1 + |p.key|
    ensures k[..|p.config.prefix|] == p.config.prefix && k[|p.config.prefix|] == ':'
    ensures k[|p.config.prefix| + 1..] == p.key
  {
    p.config.prefix + ":" + p.key
  }

  /** Two parameter sets under one prefix share a store key only if they share the key. */
  lemma RedisKeyInjective(p: ThrottleParams, q: ThrottleParams)
    requires p.config.prefix == q.config.prefix
    ensures RedisKey(p) == RedisKey(q) <==> p.key == q.key
  {
    if RedisKey(p) == RedisKey(q) {
      assert p.key == RedisKey(p)[|p.config.prefix| + 1..];
    }
  }

  /** An `unknown:` option is refused with its name in the message. */
  lemma UnknownOptionRefused(config: Config)
    ensures New(config, "key", 1, 1, [("unknown", Other(0))]) == Failure("Unknown options: unknown")
  {
    assert UnknownOptions([("unknown", Other(0))]) == ["unknown"] by {
      assert [("unknown", Other(0))][1..] == [];
    }
    assert Join(["unknown"], ", ") == "unknown";
    assert "Unknown options: " + "unknown" == "Unknown options: unknown";
  }
}
