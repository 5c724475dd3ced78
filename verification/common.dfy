/** Shared value types for JavaScript values the client reads: absent fields, and JavaScript truthiness. */
module Common {

  /** A field that may be `null`/`undefined` (None) or present (Some). */
  datatype Option<+T> = None | Some(value: T) {
    function GetOr(default: T): T {
      match this
      case Some(v) => v
      case None => default
    }
  }

  /** JavaScript truthiness of an optional string: absent and "" are falsy. */
  predicate TruthyStr(s: Option<string>) {
    s.Some? && |s.value| > 0
  }

  /** JavaScript truthiness of an optional number: absent and 0 are falsy. */
  predicate TruthyInt(n: Option<int>) {
    n.Some? && n.value != 0
  }

  /** `x || 0` on an optional number. */
  function OrZero(n: Option<int>): (r: int)
    ensures TruthyInt(n) ==> r == n.value
    ensures !TruthyInt(n) ==> r == 0
  {
    if n.Some? then n.value else 0
  }

  /** `s || fallback` on an optional string. */
  function StrOr(s: Option<string>, fallback: string): (r: string)
    ensures TruthyStr(s) ==> r == s.value
    ensures !TruthyStr(s) ==> r == fallback
  {
    if TruthyStr(s) then s.value else fallback
  }

  /** Sum of a sequence of integers, left to right. */
  function Sum(s: seq<int>): int
  {
    if |s| == 0 then 0 else Sum(s[..|s| - 1]) + s[|s| - 1]
  }

  lemma {:induction false} SumAppend(a: seq<int>, b: seq<int>)
    ensures Sum(a + b) == Sum(a) + Sum(b)
    decreases |b|
  {
    if |b| == 0 {
      assert a + b == a;
    } else {
      assert (a + b)[..|a + b| - 1] == a + b[..|b| - 1];
      SumAppend(a, b[..|b| - 1]);
    }
  }
}
