/** `SpeedLimiter::Errors::LimitExceededError`: an error built from a State,
    whose message is fixed when it is built. */
module Errors {
  import opened Base
  import opened Text
  import opened Params
  import opened States

  datatype LimitExceededError = LimitExceededError(state: State, message: string)
  {
    // The readers the Ruby class delegates to its state.
    function Key(): string { state.Key() }
    function Ttl(): Option<Num> { state.ttl }
    function Count(): Option<int> { state.count }
    function Limit(): int { state.Limit() }
    function Period(): int { state.Period() }
  }

  /** `error_message`, from the state's key, ttl, limit, count and period. */
  function ErrorMessage(s: State): string
  {
    s.Key() + " rate limit exceeded. Retry after " + NumOrNilText(s.ttl) + " seconds. limit="
    + IntText(s.Limit()) + ", count=" + IntOrNilText(s.count) + ", period=" + IntText(s.Period())
  }

  /** `LimitExceededError.new(state)`: keeps the state and computes the message once. */
  function New(s: State): (e: LimitExceededError)
    ensures e.state == s && e.message == ErrorMessage(s)
    ensures e.Key() == s.params.key && e.Ttl() == s.ttl && e.Count() == s.count
    ensures e.Limit() == s.params.limit && e.Period() == s.params.period
  {
    LimitExceededError(s, ErrorMessage(s))
  }

  /** The stored message begins with the key and ends with the period. */
  lemma MessageFrames(s: State)
    ensures var m := New(s).message;
      m[..|s.Key()|] == s.Key() && m[|m| - |IntText(s.Period())|..] == IntText(s.Period())
  {
  }

  /** The five fields of a message, as the text it interpolates them with. */
  datatype MessageFields = MessageFields(key: string, ttl: string, limit: string, count: string, period: string)

  predicate Lacks(w: string, c: char) { forall i :: 0 <= i < |w| ==> w[i] != c }

  /** The text before the last `c` and the text after it; with no `c` at
      all, nothing before and the whole text after. */
  function SplitLast(m: string, c: char): (string, string)
    decreases |m|
  {
    if |m| == 0 then ("", "")
    else if m[|m| - 1] == c then (m[..|m| - 1], "")
    else
      var (a, b) := SplitLast(m[..|m| - 1], c);
      (a, b + [m[|m| - 1]])
  }

  lemma {:induction false} SplitAt(p: string, c: char, w: string)
    requires Lacks(w, c)
    ensures SplitLast(p + [c] + w, c) == (p, w)
    decreases |w|
  {
    var m := p + [c] + w;
    if |w| > 0 {
      var w' := w[..|w| - 1];
      assert m[..|m| - 1] == p + [c] + w';
      SplitAt(p, c, w');
      assert w' + [w[|w| - 1]] == w;
    } else {
      assert m[..|m| - 1] == p;
    }
  }

  /** `m` without the suffix `x`, when it ends with it. */
  function Strip(m: string, x: string): Option<string>
  {
    if |m| >= |x| && m[|m| - |x|..] == x then Some(m[..|m| - |x|]) else None
  }

  lemma StripOf(p: string, x: string)
    ensures Strip(p + x, x) == Some(p)
  {
    assert (p + x)[|p|..] == x && (p + x)[..|p|] == p;
  }

  /** Reads a message back into its fields from the end: the period, count
      and limit after the last '=', the ttl after the last space, and the
      key as what is left, so a key with any characters in it is read whole. */
  function ReadMessage(m: string): Option<MessageFields>
  {
    var (r1, q) := SplitLast(m, '=');
    var x1 := Strip(r1, ", period");
    if x1.None? then None else
    var (r2, n) := SplitLast(x1.value, '=');
    var x2 := Strip(r2, ", count");
    if x2.None? then None else
    var (r3, l) := SplitLast(x2.value, '=');
    var x3 := Strip(r3, " seconds. limit");
    if x3.None? then None else
    var (r4, t) := SplitLast(x3.value, ' ');
    var x4 := Strip(r4, " rate limit exceeded. Retry after");
    if x4.None? then None else
    Some(MessageFields(x4.value, t, l, n, q))
  }

  /** Reading one field back: `p + tag + "=" + w` splits at that '='. */
  lemma ReadField(p: string, tag: string, c: char, w: string)
    requires Lacks(w, c)
    ensures var (r, v) := SplitLast(p + tag + [c] + w, c);
      v == w && Strip(r, tag) == Some(p)
  {
    SplitAt(p + tag, c, w);
    StripOf(p, tag);
  }

  /** Any key, a ttl without spaces and three texts without '=',
      interpolated as a message is, read back as they were. */
  lemma ReadFields(k: string, t: string, l: string, n: string, q: string)
    requires Lacks(t, ' ') && Lacks(l, '=') && Lacks(n, '=') && Lacks(q, '=')
    ensures ReadMessage(k + " rate limit exceeded. Retry after " + t + " seconds. limit=" + l + ", count=" + n + ", period=" + q)
            == Some(MessageFields(k, t, l, n, q))
  {
    var x3 := k + " rate limit exceeded. Retry after " + t;
    var x2 := x3 + " seconds. limit=" + l;
    var x1 := x2 + ", count=" + n;
    var m := x1 + ", period=" + q;
    assert x1 + ", period=" + q == x1 + ", period" + "=" + q;
    ReadField(x1, ", period", '=', q);
    assert x2 + ", count=" + n == x2 + ", count" + "=" + n;
    ReadField(x2, ", count", '=', n);
    assert x3 + " seconds. limit=" + l == x3 + " seconds. limit" + "=" + l;
    ReadField(x3, " seconds. limit", '=', l);
    assert k + " rate limit exceeded. Retry after " + t == k + " rate limit exceeded. Retry after" + " " + t;
    ReadField(k, " rate limit exceeded. Retry after", ' ', t);
  }

  lemma DigitsLack(s: string, c: char)
    requires AllDigits(s) && !IsDigit(c)
    ensures Lacks(s, c)
  {
    assert forall i :: 0 <= i < |s| ==> IsDigit(s[i]);
  }

  /** An Integer's text has only digits and a sign. */
  lemma IntTextLacks(i: int, c: char)
    requires !IsDigit(c) && c != '-'
    ensures Lacks(IntText(i), c)
  {
    if i < 0 {
      DigitsLack(NatText(-i), c);
      assert IntText(i) == "-" + NatText(-i);
    } else {
      DigitsLack(NatText(i), c);
    }
  }

  /** A Float's text has only digits, a sign and a point. */
  lemma FloatTextLacks(millis: int, c: char)
    requires !IsDigit(c) && c != '-' && c != '.'
    ensures Lacks(FloatText(millis), c)
  {
    var a := if millis < 0 then -millis else millis;
    var d := NatText(a / 1000);
    var f := FractionText(a % 1000);
    var sign := if millis < 0 then "-" else "";
    DigitsLack(d, c);
    assert AllDigits(f) by {
      if a % 1000 != 0 {
        var g := [Digit(a % 1000 / 100), Digit(a % 1000 / 10 % 10), Digit(a % 1000 % 10)];
        assert f == g[..|f|];
      }
    }
    DigitsLack(f, c);
    assert FloatText(millis) == sign + d + "." + f;
  }

  lemma NumTextLacks(x: Option<Num>, c: char)
    requires !IsDigit(c) && c != '-' && c != '.'
    ensures Lacks(NumOrNilText(x), c)
  {
    match x
    case None =>
    case Some(Int(n)) => IntTextLacks(n, c);
    case Some(Float(millis)) => FloatTextLacks(millis, c);
  }

  /** A message reads back as the state's key and the texts of its ttl,
      limit, count and period; `IntTextRoundTrip` reads the Integers on. */
  lemma MessageReadsBack(s: State)
    ensures ReadMessage(New(s).message)
            == Some(MessageFields(s.Key(), NumOrNilText(s.ttl), IntText(s.Limit()), IntOrNilText(s.count), IntText(s.Period())))
  {
    NumTextLacks(s.ttl, ' ');
    IntTextLacks(s.Limit(), '=');
    IntTextLacks(s.Period(), '=');
    if s.count.Some? { IntTextLacks(s.count.value, '='); }
    ReadFields(s.Key(), NumOrNilText(s.ttl), IntText(s.Limit()), IntOrNilText(s.count), IntText(s.Period()));
  }

  /** The overflow the raise tests expect: a second call against limit 1,
      period 1, with one second left in the window. */
  lemma MessageExample(p: ThrottleParams)
    requires p.key == "k" && p.limit == 1 && p.period == 1
    ensures New(State(p, Some(2), Some(Float(1000)))).message
            == "k" + " rate limit exceeded. Retry after " + "1.0" + " seconds. limit=" + "1"
               + ", count=" + "2" + ", period=" + "1"
  {
    FloatTextWhole(1);
    assert IntText(1) == "1" && IntText(2) == "2";
  }
}
