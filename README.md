# speed_limiter, modelled in Dafny

`speed_limiter` is a fixed-window rate limiter for Ruby. Each key has a counter in Redis. Every attempt increments the counter and makes sure the key expires `period` seconds after the window opened. While the count is at most `limit` the caller's block runs. Otherwise the caller runs the overflow callbacks, sleeps until the key expires and tries again.

This project models that logic over an abstract Redis server and proves what it promises:

- `Store` is the server. It keeps a map from key to count and optional expiry, a clock in milliseconds on which keys expire, the server version, and a log of every command answered.
- `RedisWrapper` is `SpeedLimiter::Redis`: `increment` on its two protocols, `ttl`, and the cached version probe. A pure `Conn` value defines each operation. The `Redis` class's methods are proved equal to those functions.
- `Configuration`, `Params`, `States` and `Errors` are `Config`, `ThrottleParams`, `State` and `LimitExceededError`. `Text` holds the Ruby string conversions their messages use.
- `Engine` is the throttle loop as a function of the store. `Throttle#throttle` and the older module method `SpeedLimiter.throttle` are two copies of one loop. A `Surface` value holds how they differ: the key, what user code is called with, and the callbacks. User code (blocks and callbacks) is a parameter `code`. It maps a code identity and its arguments to an outcome (returned or raised) and the milliseconds it took, which pass on the store's clock.
- `EngineLaws` proves properties of `Engine`: callback order and arguments, the early return and the double TTL check, that the block runs at most once and only within the limit, and that with one caller two passes always finish a call. It also proves the session properties: successive calls see the counts 1, 2, 3, …, and the call after a full window waits exactly once, for exactly one period.
- `Throttling` is the `Throttle` class. `SpeedLimiter` is the module singleton. Their methods talk to a `Server` object and are proved equal to `Engine`'s functions, step list included. A step list is the trace of counts, TTL reads, callbacks, sleeps and the block call.

The tests describe an API the code does not have: `Throttle#call`, a positional key, and `SpeedLimiter.throttle` yielding a `State` or returning a `Throttle`. The model follows the code, with one exception. `Config` has no `on_throttled` reader, so both loops raise NoMethodError on their first overflow whose first TTL read is non-negative (see "## Findings"). An overflow whose first TTL is negative returns to the loop at once (`EngineLaws.WaitReturnsEarly`). The `Throttle` class and the module singleton read `on_throttled` as a `Config` field that starts as nil. That is the corrected behaviour. The as-written behaviour appears only in `Engine`, where the config's callback is `None`, and `EngineLaws.WaitMissingReader` states it.

## Model

| member | source | states |
|---|---|---|
| Configuration.Config.constructor | lib/speed_limiter/config.rb:8-13 | the defaults: URL `redis://localhost:6379/0`, no connection, `no_limit` false, prefix `speed_limiter`; the `on_throttled` field starts as nil |
| Configuration.Config.SetNoLimit | lib/speed_limiter/config.rb:6-15 | the setter changes only `no_limit`, and `no_limit?` then equals it |
| Configuration.Config.NoLimit | lib/speed_limiter/config.rb:15 | `no_limit?` is `no_limit`; `SetNoLimit` states how the two stay equal |
| Configuration.Config.SetPrefix | lib/speed_limiter/config.rb:6 | the setter changes only `prefix` |
| Configuration.Config.SetRedisUrl | lib/speed_limiter/config.rb:6 | the setter changes only `redis_url` |
| Configuration.Config.SetRedis | lib/speed_limiter/config.rb:6 | the setter changes only `redis` |
| Configuration.Config.SetOnThrottled | lib/speed_limiter/throttle.rb:46 | the callback field that both loops read changes alone |
| Params.New | lib/speed_limiter/throttle_params.rb:16-26 | construction fails exactly when some option name is neither `on_throttled` nor `retry`; the message is `Unknown options: ` and the unknown names joined by `, `; on success config, key, limit, period and options are kept unchanged |
| Params.UnknownOptionsAre | lib/speed_limiter/throttle_params.rb:8-23 | the unknown names are exactly the option keys outside `KNOWN_OPTIONS` |
| Params.UnknownOptions | lib/speed_limiter/throttle_params.rb:23 | `options.keys - KNOWN_OPTIONS`, in order; `UnknownOptionsAre` states which names it holds |
| Params.UnknownOptionRefused | spec/speed_limiter/throttle_params_spec.rb:11-12 | an `unknown:` option is refused with `Unknown options: unknown` |
| Params.LookupFinds | lib/speed_limiter/throttle_params.rb:38-45 | `on_throttled` and `retry` return the value stored under the name |
| Params.LookupAbsent | lib/speed_limiter/throttle_params.rb:38-45 | an absent option reads as nil |
| Params.LookupDistinct | lib/speed_limiter/throttle_params.rb:38-45 | on a hash, whose names are distinct, an option reads as the value stored under its name |
| Params.Lookup | lib/speed_limiter/throttle_params.rb:38-45 | `@options[name]`: the first binding of the name, nil when absent; `LookupFinds`, `LookupAbsent` and `LookupDistinct` state this |
| Params.OnThrottled | lib/speed_limiter/throttle_params.rb:38-40 | `on_throttled` reads the option of that name |
| Params.Retry | lib/speed_limiter/throttle_params.rb:43-45 | `retry` reads the option of that name |
| Params.RedisKey | lib/speed_limiter/throttle_params.rb:48-50 | the key is the config's prefix, a colon, then the key, in that order and nothing else |
| Params.RedisKeyInjective | lib/speed_limiter/throttle_params.rb:48-50 | under one prefix two throttles share a store key exactly when they share the key |
| States.CreateState | lib/speed_limiter/throttle_params.rb:55-57 | the state holds this params object and the given count and ttl; its delegated readers return the params' values |
| States.ToS | lib/speed_limiter/state.rb:39 | `to_s` equals `inspect` |
| States.Inspect | lib/speed_limiter/state.rb:36-38 | `inspect`: the class name, then the quoted key, the count and the ttl; `InspectLayout` and `InspectExample` state the layout |
| States.InspectLayout | lib/speed_limiter/state.rb:36-38 | `inspect` is `<SpeedLimiter::State key="<key>" count=<count> ttl=<ttl>>`; nil prints empty |
| States.InspectExample | spec/speed_limiter/state_spec.rb:22-23 | the key `test_key`, count 1 and ttl 2 give the string the spec file expects, for `inspect` and for `to_s` |
| Text.EscapePlain | lib/speed_limiter/state.rb:37 | `String#inspect` leaves a key unchanged between the quotes when it has no `"`, no `\`, no C0 or C1 control character, no DEL and no `#` before `{`, `$` or `@` |
| Text.EscapeInterpolation | lib/speed_limiter/state.rb:37 | a `#` before `{` is printed as `\#`, while a `#` before anything else is printed as it is |
| Text.UnescapeEscape | lib/speed_limiter/state.rb:37 | the escaping of a quoted key can be undone: no two keys print alike |
| Text.IntTextRoundTrip | lib/speed_limiter/errors/limit_exceeded_error.rb:31 | an interpolated Integer reads back as the same number |
| Text.FloatTextWhole | lib/speed_limiter/errors/limit_exceeded_error.rb:31 | a whole Float prints as the Integer followed by `.0` |
| Errors.New | lib/speed_limiter/errors/limit_exceeded_error.rb:12-16 | the error keeps its state; the message is computed once, from that state; key, ttl, count, limit and period are the state's |
| Errors.ErrorMessage | lib/speed_limiter/errors/limit_exceeded_error.rb:30-32 | `error_message`: the key, the ttl, the limit, the count and the period interpolated in that order; `MessageFrames` and `MessageExample` state it |
| Errors.MessageFrames | lib/speed_limiter/errors/limit_exceeded_error.rb:30-32 | the message starts with the key and ends with the period |
| Errors.MessageReadsBack | lib/speed_limiter/errors/limit_exceeded_error.rb:30-32 | the message can be read back, from its end, into the key and the texts of the ttl, limit, count and period it was built from, whatever characters the key holds |
| Errors.ReadFields | lib/speed_limiter/errors/limit_exceeded_error.rb:31 | any key with a ttl text free of spaces and limit, count and period texts free of `=`, interpolated as `error_message` does, reads back as those five texts |
| Errors.MessageExample | lib/speed_limiter/errors/limit_exceeded_error.rb:30-32 | key `k`, ttl 1.0 s, limit 1, count 2 and period 1 give `k rate limit exceeded. Retry after 1.0 seconds. limit=1, count=2, period=1` |
| Store.PttlNegative | lib/speed_limiter/redis.rb:11-13 | on a live store PTTL is negative exactly when the key has no pending expiry, and never 0 |
| Store.TtlSignMatchesPttl | lib/speed_limiter/redis.rb:24-26 | TTL and PTTL agree on whether a key has a pending expiry |
| Store.ElapseRemaining | lib/speed_limiter/throttle.rb:52 | sleeping for a key's remaining life makes it vanish |
| Store.ElapseKeeps | lib/speed_limiter/throttle.rb:52 | passing time keeps the store live, sends nothing, never adds a key, and keeps a bounded key bounded |
| Store.Server.IncrBy | lib/speed_limiter/redis.rb:18 | the server answers INCRBY as `Snapshot.IncrBy` says and logs it |
| Store.Server.Expire | lib/speed_limiter/redis.rb:19 | the server answers EXPIRE [NX] as `Snapshot.Expire` says and logs it |
| Store.Server.Ttl | lib/speed_limiter/redis.rb:24 | the server answers TTL in whole seconds and logs it |
| Store.Server.Pttl | lib/speed_limiter/redis.rb:12 | the server answers PTTL in milliseconds and logs it |
| Store.Server.Info | lib/speed_limiter/redis.rb:37 | the server answers INFO with its version and logs it |
| Store.Server.Elapse | lib/speed_limiter/throttle.rb:52 | `sleep`: the clock moves on and expired keys vanish |
| RedisWrapper.SupportsNxIff | lib/speed_limiter/redis.rb:38 | the version test holds exactly when the major version is 7 or more |
| RedisWrapper.AtLeast | lib/speed_limiter/redis.rb:38 | `Gem::Version#>=` on numeric segments, missing segments read as 0; `SupportsNxIff` states the Redis 7 test it gives |
| RedisWrapper.ProbeOnce | lib/speed_limiter/redis.rb:34-39 | the probe sends INFO at most once; later probes send nothing and give the cached answer, which is the version test |
| RedisWrapper.Conn.Probe | lib/speed_limiter/redis.rb:34-39 | `supports_expire_nx?`: the cached answer if there is one, else INFO and the version test, cached; `ProbeOnce` states it |
| RedisWrapper.Conn.Ttl | lib/speed_limiter/redis.rb:11-13 | `ttl` is PTTL over 1000 as a Float, negative exactly when PTTL is, and leaves the probe cache alone |
| RedisWrapper.Conn.Increment | lib/speed_limiter/redis.rb:15-30 | `increment` on both protocols; `IncrementCounts`, `IncrementSendsOneIncrBy`, `IncrementWithNx`, `IncrementWithoutNx`, `IncrementBounds` and `IncrementInWindow` state what it does |
| RedisWrapper.IncrementCounts | lib/speed_limiter/redis.rb:15-30 | both paths add exactly 1 to the stored count and return it first; no other key changes and no time passes |
| RedisWrapper.IncrementSendsOneIncrBy | lib/speed_limiter/redis.rb:17-26 | an increment sends exactly one INCRBY |
| RedisWrapper.IncrementWithNx | lib/speed_limiter/redis.rb:16-20 | on Redis 7+ INCRBY is followed by EXPIRE NX and nothing else; an existing expiry is kept and the reply is 0; a missing one is set one period away and the reply is 1 |
| RedisWrapper.IncrementWithoutNx | lib/speed_limiter/redis.rb:21-27 | before Redis 7 INCRBY is followed by TTL, then EXPIRE exactly when that TTL is negative; that TTL is the second reply, negative exactly when the key had no expiry; after that EXPIRE the key expires one period from now, or is gone when the period is not positive; otherwise its expiry is kept |
| RedisWrapper.IncrementBounds | lib/speed_limiter/redis.rb:19-26 | with no other caller, after an increment on either path the key is gone or carries an expiry, and with a period of at least one second it is there and carries one; the cached answer stays right |
| RedisWrapper.IncrementInWindow | lib/speed_limiter/redis.rb:15-30 | inside a window opened at the current time, either path counts one more and leaves the window's expiry alone |
| RedisWrapper.Redis.Ttl | lib/speed_limiter/redis.rb:11-13 | the wrapper's `ttl` is `Conn.Ttl` on the connection it wraps |
| RedisWrapper.Redis.SupportsExpireNx | lib/speed_limiter/redis.rb:34-39 | the wrapper's probe is `Conn.Probe`, cache included |
| RedisWrapper.Redis.Increment | lib/speed_limiter/redis.rb:15-30 | the wrapper's `increment` is `Conn.Increment`: the same commands, the same replies, the same new state |
| Engine.Callbacks | lib/speed_limiter/throttle.rb:46-47 | the callbacks that get called: the config's first, then the throttle's, each only if it responds to `call` |
| Engine.Call | lib/speed_limiter/throttle.rb:46 | one callback, called only if it responds to `call`; `NotifySteps` states what it records |
| Engine.Notify | lib/speed_limiter/throttle.rb:46-47 | the config's callback, then the throttle's; `NotifySteps`, `NotifyStore` and `NotifyCalm` state it |
| Engine.WaitForInterval | lib/speed_limiter/throttle.rb:42-53 | `wait_for_interval`; `WaitReturnsEarly`, `WaitNotifies`, `WaitSteps` and `WaitClears` state it |
| Engine.Round | lib/speed_limiter/throttle.rb:32-36 | one pass of the loop; `RoundCountsOnce`, `RoundYields` and `RoundOverflow` state it |
| Engine.Loop | lib/speed_limiter/throttle.rb:31-37 | at most `rounds` passes, stopping at the first that finishes; `LoopYields` and `LoopSettles` state it |
| Engine.Throttle | lib/speed_limiter/throttle.rb:28-38 | `throttle`: the bypass under `no_limit?`, else two passes of the loop; `NoLimitBypass` and `LoopSettles` state it |
| Engine.RunCode | lib/speed_limiter/throttle.rb:34 | user code returns what `code` says, and its time passes on the server's clock |
| EngineLaws.NotifySteps | lib/speed_limiter/throttle.rb:46-47 | the callbacks run in order with the same arguments until one raises; the error is that callback's, and there is no error exactly when none raises |
| EngineLaws.NotifyStore | lib/speed_limiter/throttle.rb:46-47 | callbacks send nothing to the store; only time passes, so the key stays bound to expire |
| EngineLaws.NotifyCalm | lib/speed_limiter/throttle.rb:46-47 | callbacks that return at once leave the store exactly as it was |
| EngineLaws.WaitReturnsEarly | lib/speed_limiter/throttle.rb:43-44 | a negative first TTL returns at once: one read, no callback, no sleep |
| EngineLaws.WaitNotifies | lib/speed_limiter/throttle.rb:42-53 | after a non-negative TTL each callback gets the overflowing count and that TTL, the config's first; the wait ends in an error exactly when one raises; otherwise the TTL is read again, and there is a sleep exactly when that reading is non-negative, lasting exactly that long |
| EngineLaws.WaitBroke | lib/speed_limiter/throttle.rb:43-47 | after a non-negative first TTL the wait ends in an error exactly when a callback raises, and then its steps are that read and the callbacks up to the one that raised |
| EngineLaws.WaitWaited | lib/speed_limiter/throttle.rb:49-52 | when no callback raises the TTL is read again, and the wait sleeps exactly when that reading is non-negative, for exactly that long |
| EngineLaws.WaitMissingReader | lib/speed_limiter/throttle.rb:46 | as written, with no `on_throttled` reader on `Config`: a non-negative first TTL raises NoMethodError before any callback or sleep |
| EngineLaws.WaitSteps | lib/speed_limiter/throttle.rb:42-53 | a wait sends no INCRBY and holds only reads, callbacks and a sleep |
| EngineLaws.WaitClears | lib/speed_limiter/throttle.rb:42-53 | a wait that returns to the loop leaves the key gone |
| EngineLaws.RoundCountsOnce | lib/speed_limiter/throttle.rb:31-37 | each pass of the loop increments exactly once; its count is the pass's first step and appears nowhere else in it |
| EngineLaws.RoundLog | lib/speed_limiter/throttle.rb:32 | a pass sends exactly one INCRBY, whichever way it ends |
| EngineLaws.RoundShape | lib/speed_limiter/throttle.rb:32-36 | a pass records its count first, has at least one more step, and records no other count |
| EngineLaws.RoundYields | lib/speed_limiter/throttle.rb:32-36 | in one pass the block runs only right after a count within the limit; a pass that goes round again runs no block |
| EngineLaws.RoundOverflow | lib/speed_limiter/throttle.rb:34-36 | a pass goes round again only after a count over the limit, and after such a count its steps are the count followed by what the wait did |
| EngineLaws.OverflowAbove | lib/speed_limiter/throttle.rb:34-36 | after a count over the limit a pass runs no block and records no count within the limit |
| EngineLaws.LoopYields | lib/speed_limiter/throttle.rb:31-37 | over the whole loop the block runs at most once, as the last step and right after a count within the limit; it gets that count and the second reply; its result is the call's result; every count within the limit runs the block |
| EngineLaws.LoopFinished | lib/speed_limiter/throttle.rb:34 | a loop whose first pass runs the block is that pass, and the block is placed right |
| EngineLaws.LoopPending | lib/speed_limiter/throttle.rb:36-37 | a loop whose first pass waits keeps the block placed right when the rest of the loop does |
| EngineLaws.AbsentAdmits | lib/speed_limiter/throttle.rb:32-34 | with no counter for the key a pass counts 1 and runs the block |
| EngineLaws.LoopSettles | lib/speed_limiter/throttle.rb:31-37 | with one caller and a limit of at least 1 the loop finishes within two passes, and further passes change nothing; a second pass counts 1 |
| EngineLaws.NoLimitBypass | lib/speed_limiter/throttle.rb:29 | with `no_limit?` the block runs once, with a state whose count and ttl are nil; nothing is sent to the store |
| EngineLaws.RoundInWindow | lib/speed_limiter/throttle.rb:32-34 | inside a fresh window, a count below the limit is run at once, and the window counts one more |
| EngineLaws.ThrottleInWindow | spec/speed_limiter/throttle_spec.rb:12-23 | one call inside a fresh window gets the next count at once |
| EngineLaws.SuccessiveCounts | spec/speed_limiter/throttle_spec.rb:12-23 | successive calls within one window see the counts k+1, k+2, … in turn, each run at once |
| EngineLaws.WaitInFullWindow | lib/speed_limiter/throttle.rb:42-53 | on a window with a whole period left, the wait reads that period twice, calls the callbacks, sleeps once for it, and leaves the key gone |
| EngineLaws.WindowOverflow | lib/speed_limiter/throttle.rb:31-37 | the call after a full window counts one over the limit, waits once for exactly the period, then counts 1 and runs the block |
| EngineLaws.OverflowSleepsOnce | lib/speed_limiter/throttle.rb:52 | such a call sleeps exactly once, for the period, and ends with the count 1 and the block |
| EngineLaws.OneWaitPerWindow | spec/speed_limiter/throttle_spec.rb:27-41 | from a key with no window, `limit` calls run at once with the counts 1 to `limit`; the next waits once, for one period |
| EngineLaws.ElevenCalls | spec/speed_limiter/throttle_spec.rb:27-41 | limit 10 per second: ten calls run at once with the counts 1 to 10; the eleventh sleeps once, for one second, then runs with the count 1; the clock has moved on by one second |
| Throttling.Throttle.New | lib/speed_limiter/throttle.rb:19-23 | `Throttle.new` refuses unknown options with `ThrottleParams`' message; otherwise it keeps the config, the params and the block and has no wrapper yet |
| Throttling.Throttle.Client | lib/speed_limiter/throttle.rb:55-57 | the wrapper is created once, over the config's connection or a new one, and kept |
| Throttling.Throttle.Call | lib/speed_limiter/throttle.rb:46-47 | a callback runs only if it responds to `call`, and its error is reported |
| Throttling.Throttle.WaitForInterval | lib/speed_limiter/throttle.rb:42-53 | the method does what `Engine.WaitForInterval` says: the same steps, the same new store, the same error |
| Throttling.Throttle.Throttle | lib/speed_limiter/throttle.rb:28-38 | the method does what `Engine.Throttle` says; that run finishes; with `no_limit?` the wrapper is not created |
| Throttling.Throttle.Notify | lib/speed_limiter/throttle.rb:46-47 | the config's callback, then the throttle's, as `Engine.Notify` says: the second is skipped once the first raises |
| Throttling.Throttle.Pass | lib/speed_limiter/throttle.rb:32-36 | one pass does what `Engine.Round` says: same steps, same new store, and it reports the outcome exactly when the pass finishes the call |
| Throttling.Throttle.LimitedThrottle | lib/speed_limiter/throttle.rb:31-37 | the loop does what two passes of `Engine.Loop` say, and it ends |
| Throttling.Throttle.LoopOver | lib/speed_limiter/throttle.rb:31-37 | over a given wrapper the loop does what two passes of `Engine.Loop` say and ends with the call's outcome |
| SpeedLimiter.Limiter.Config | lib/speed_limiter.rb:10-12 | `config` is created once, with the defaults, and the same object is returned afterwards |
| SpeedLimiter.Limiter.Redis | lib/speed_limiter.rb:18-20 | the connection is the config's or a new one, created once and kept |
| SpeedLimiter.Limiter.SupportsExpireNx | lib/speed_limiter.rb:78-83 | the probe is `Conn.Probe`: INFO once, then the cached answer |
| SpeedLimiter.Limiter.Ttl | lib/speed_limiter.rb:57-59 | `ttl` is `Conn.Ttl` |
| SpeedLimiter.Limiter.Increment | lib/speed_limiter.rb:61-76 | `increment` is `Conn.Increment`, count only: the same commands on both paths and the same new store |
| SpeedLimiter.Limiter.Call | lib/speed_limiter.rb:48-49 | a callback runs, with the TTL and the key, only if it responds to `call` |
| SpeedLimiter.Limiter.WaitForInterval | lib/speed_limiter.rb:44-55 | the module's wait is `Engine.WaitForInterval` over the prefixed key, the callbacks getting `(ttl, key)` |
| SpeedLimiter.Limiter.Throttle | lib/speed_limiter.rb:29-40 | the module's `throttle` is `Engine.Throttle` over `prefix:key`, the block getting the bare count, or nothing when `no_limit?`; with `no_limit?` no connection is made and the probe is not run |
| SpeedLimiter.Limiter.Notify | lib/speed_limiter.rb:48-49 | the config's callback, then the given one, as `Engine.Notify` says: the second is skipped once the first raises |
| SpeedLimiter.Limiter.Pass | lib/speed_limiter.rb:34-38 | one pass of the module's loop does what `Engine.Round` says over the prefixed key, reporting the outcome exactly when the pass finishes the call |
| SpeedLimiter.Limiter.LimitedThrottle | lib/speed_limiter.rb:33-39 | the module's loop does what two passes of `Engine.Loop` say, and it ends |

## Left out

- The network, the Redis client and pipelining are left out. The store is a value whose commands cannot fail. The two pipelined commands are modelled as sent one after the other, with nothing in between.
- Concurrency is left out: other processes sharing the key, and the race on the pre-7 path between INCRBY and EXPIRE. The session lemmas assume a single caller.
- Floating point: a TTL is a whole number of milliseconds, and a Float is printed by its decimal expansion to three places. `sleep` moves the clock by exactly that many milliseconds.
- `Gem::Version` is modelled only on numeric segment lists. Prerelease strings are left out.
- Text.Escape: control characters are printed as themselves, where Ruby prints escapes such as `\n`, `\e`, `\u0001` or `\u0085`. So are the other characters Ruby does not count as printable, such as unassigned code points and U+2028 and U+2029. `Text.Plain` excludes the C0 and C1 controls and DEL, so `Text.EscapePlain` and `States.InspectLayout` never speak of those. They do accept the other non-printable characters, and for a key holding one they state the model's raw output, not Ruby's escape. The escapes of `"`, `\` and an interpolating `#` (`#{`, `#$`, `#@`) are modelled.
- Text.EscapePlain: stated only for keys that print unchanged. Keys with `"`, `\` or an interpolating `#` are covered by `Text.Escape` and `Text.UnescapeEscape`, and keys with C0 or C1 control characters or DEL are not covered. A key with another non-printable character is covered with the model's raw output (see the line above).
- States.InspectLayout: stated only for keys that `Text.Plain` accepts. Other keys print through `Text.Escape`, as in `"a#{b"` becoming `"a\#{b"` (`Text.EscapeInterpolation`).
- INCRBY's 64-bit overflow is left out: counts are unbounded integers.
- Store.PttlNegative: a key in the model expires at the millisecond its expiry is reached, so PTTL never answers 0. Redis removes a key only once the clock has passed its expiry, and PTTL answers 0 during that millisecond. `Throttle#wait_for_interval` would then sleep for 0 seconds and go round again.
- Store.ElapseRemaining: sleeping for exactly the remaining time removes the key in the model. On Redis the key may live on for that last millisecond. The two-pass bound (`EngineLaws.LoopSettles`, `EngineLaws.WindowOverflow`) rests on this boundary. On Redis a third pass may follow a wait that ended at the expiry instant.
- `Throttling.Throttle.Throttle` and `SpeedLimiter.Limiter.Throttle` require `limit >= 1` unless `no_limit?`. With a limit below 1 every pass overflows. As written, the first overflow whose first TTL is non-negative then raises NoMethodError (`EngineLaws.WaitMissingReader`). With the corrected reader the source loops forever, waiting one period per pass, while the callbacks return. With a period of 0 or less EXPIRE deletes the key, so the TTL is negative, the wait returns at once, and the loop spins without sleeping, as written or corrected. The model proves every call ends, and a call that never ends is outside it.
- The session lemmas (`SuccessiveCounts`, `OneWaitPerWindow`, `ElevenCalls`) assume user code that returns at once and never raises. The test's one-second timing assumes that too.
- A callback may change the config while it runs. The model does not follow such changes: callbacks touch only the clock.
- `configure` is left out. It only yields the config, and the config's setters are modelled.
- `raise_on_throttled`, retry execution and `Throttle#call` appear only in the tests. The code has none of them: `retry` is stored and never used, and `raise_on_throttled` would be refused as an unknown option.
- `ThrottledError` is an empty subclass with nothing to model.
- A missing block is left out: the block is always some user code.
- The real clock is left out. `Elapse` is the only way time passes.

## Findings

| source | as written | input that shows it | evidently intended | confidence | as-written member | corrected member |
|---|---|---|---|---|---|---|
| lib/speed_limiter/config.rb:6 | `Config` declares no `on_throttled` accessor, yet `wait_for_interval` reads `config.on_throttled` (lib/speed_limiter/throttle.rb:46, lib/speed_limiter.rb:48) | any overflow whose first TTL read is non-negative, e.g. a second call against limit 1 within the window: NoMethodError is raised before any callback or sleep | an optional `on_throttled` setting on `Config`, nil by default, called before the throttle's own callback | high, not executed | EngineLaws.WaitMissingReader | Throttling.Throttle.WaitForInterval |
