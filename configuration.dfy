/** `SpeedLimiter::Config`: the process-wide settings, a mutable record whose
    accessors may change each field after construction. */
module Configuration {
  import opened Base
  import opened Store

  const DefaultRedisUrl: string := "redis://localhost:6379/0"
  const DefaultPrefix: string := "speed_limiter"

  class Config {
    var redisUrl: string
    /** A Redis connection handed in by the application, or `nil`. */
    var redis: Server?
    var noLimit: bool
    var prefix: string
    /** The overflow callback both throttle loops read; the Ruby class
        declares no such accessor (see the README's findings). */
    var onThrottled: Value

    constructor ()
      ensures redisUrl == DefaultRedisUrl && redis == null && !noLimit && prefix == DefaultPrefix
      ensures onThrottled == Nil
    {
      redisUrl := DefaultRedisUrl;
      redis := null;
      noLimit := false;
      prefix := DefaultPrefix;
      onThrottled := Nil;
    }

    /** `no_limit?`, an alias of the `no_limit` reader. */
    predicate NoLimit()
      reads this
    {
      noLimit
    }

    method SetRedisUrl(url: string)
      modifies this`redisUrl
      ensures redisUrl == url
    {
      redisUrl := url;
    }

    method SetRedis(r: Server?)
      modifies this`redis
      ensures redis == r
    {
      redis := r;
    }

    method SetNoLimit(b: bool)
      modifies this`noLimit
      ensures noLimit == b && NoLimit() == b
    {
      noLimit := b;
    }

    method SetPrefix(p: string)
      modifies this`prefix
      ensures prefix == p
    {
      prefix := p;
    }

    method SetOnThrottled(v: Value)
      modifies this`onThrottled
      ensures onThrottled == v
    {
      onThrottled := v;
    }
  }
}
