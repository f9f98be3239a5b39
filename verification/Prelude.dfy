/** Shared helpers: optional values and the conversion of a float to a whole duration. */
module Prelude {
  datatype Option<+T> = None | Some(value: T)

  /** Durations are whole nanoseconds; converting a float drops the fraction toward zero. */
  const SECOND: int := 1_000_000_000
  const MINUTE: int := 60 * SECOND
  const HOUR: int := 60 * MINUTE

  function Truncate(x: real): (n: int)
    ensures 0.0 <= x ==> 0 <= n && n as real <= x < n as real + 1.0
    ensures x <= 0.0 ==> n <= 0 && n as real - 1.0 < x <= n as real
  {
    if 0.0 <= x then x.Floor else -((-x).Floor)
  }

  function Min(a: real, b: real): real {
    if a <= b then a else b
  }

  lemma EmptyOrNot(ids: set<int>)
    ensures ids == {} || exists id :: id in ids
  {
    if !exists id :: id in ids { assert ids == {}; }
  }

  lemma ScaleOrder(a: real, b: real, k: real)
    requires k > 0.0
    ensures a < b <==> a * k < b * k
  {
    if a < b { assert a * k < b * k; } else { assert a * k >= b * k; }
  }

  lemma DivideOrder(a: real, b: real, k: real)
    requires k > 0.0
    ensures a < b <==> a / k < b / k
  {
    var x, y := a / k, b / k;
    assert x * k == a && y * k == b;
    ScaleOrder(x, y, k);
  }
}
