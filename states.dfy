/** `SpeedLimiter::State`: an immutable snapshot of one attempt, handed to the
    block and to the overflow callbacks. */
module States {
  import opened Base
  import opened Text
  import opened Configuration
  import opened Params

  datatype State = State(params: ThrottleParams, count: Option<int>, ttl: Option<Num>)
  {
    // The readers the Ruby class delegates to its params.
    function Config(): Config { params.config }
    function Key(): string { params.key }
    function Limit(): int { params.limit }
    function Period(): int { params.period }
    function OnThrottled(): Value { Params.OnThrottled(params) }
    function Retry(): Value { Params.Retry(params) }
  }

  /** `ThrottleParams#create_state(count: nil, ttl: nil)`. */
  function CreateState(p: ThrottleParams, count: Option<int> := None, ttl: Option<Num> := None): (s: State)
    ensures s.params == p && s.count == count && s.ttl == ttl
    ensures s.Key() == p.key && s.Limit() == p.limit && s.Period() == p.period && s.Config() == p.config
    ensures s.OnThrottled() == Params.OnThrottled(p) && s.Retry() == Params.Retry(p)
  {
    State(p, count, ttl)
  }

  /** `"#{x}"`: `nil` interpolates as the empty string. */
  function IntOrNilText(x: Option<int>): string
  {
    match x
    case None => ""
    case Some(n) => IntText(n)
  }

  function NumText(x: Num): string
  {
    match x
    case Int(n) => IntText(n)
    case Float(m) => FloatText(m)
  }

  function NumOrNilText(x: Option<Num>): string
  {
    match x
    case None => ""
    case Some(n) => NumText(n)
  }

  const InspectHead: string := "<SpeedLimiter::State key="

  /** `State#inspect` */
  function Inspect(s: State): string
  {
    InspectHead + Quote(s.Key()) + " count=" + IntOrNilText(s.count) + " ttl=" + NumOrNilText(s.ttl) + ">"
  }

  /** `to_s` is an alias of `inspect`. */
  function ToS(s: State): (r: string)
    ensures r == Inspect(s)
  {
    Inspect(s)
  }

  /** Every state prints its class name, its quoted key, its count and its ttl, in that order. */
  lemma InspectLayout(s: State)
    requires Plain(s.Key())
    ensures Inspect(s) == InspectHead + "\"" + s.Key() + "\"" + " count=" + IntOrNilText(s.count)
                          + " ttl=" + NumOrNilText(s.ttl) + ">"
  {
    EscapePlain(s.Key());
  }

  /** The example of state_spec.rb: key "test_key", count 1, ttl 2. */
  lemma InspectExample(p: ThrottleParams)
    requires p.key == "test_key"
    ensures Inspect(State(p, Some(1), Some(Int(2)))) == "<SpeedLimiter::State key=\"test_key\" count=1 ttl=2>"
    ensures ToS(State(p, Some(1), Some(Int(2)))) == "<SpeedLimiter::State key=\"test_key\" count=1 ttl=2>"
  {
    var s := State(p, Some(1), Some(Int(2)));
    InspectLayout(s);
    assert IntOrNilText(s.count) == "1" && NumOrNilText(s.ttl) == "2";
    var head := InspectHead + "\"" + "test_key" + "\"";
    assert head == "<SpeedLimiter::State key=\"test_key\"";
    assert Inspect(s) == head + " count=" + "1" + " ttl=" + "2" + ">";
  }
}
