/**
 * Random choice, injected.
 *
 * `Math.random()` and PHP's `array_rand` are outside the model: a caller
 * supplies a draw `r` in [0, 1) and the chosen index is `floor(r * n)`, which
 * is literally how the JavaScript code picks (`array[Math.floor(Math.random() *
 * array.length)]`) and a faithful abstraction of a uniform `array_rand` key.
 */
module Random {

  /** A value returned by `Math.random()`: 0 <= r < 1. */
  type Draw = r: real | 0.0 <= r < 1.0

  /** `Math.floor(r * n)`: the index a draw selects among `n` candidates. */
  function Index(r: Draw, n: nat): (i: nat)
    requires n > 0
    ensures i < n
    ensures i as real <= r * n as real < i as real + 1.0
  {
    var x := r * n as real;
    assert 0.0 <= x < n as real by {
      assert n as real - x == (1.0 - r) * n as real;
      assert (1.0 - r) * n as real > 0.0;
    }
    x.Floor
  }

  /** Every index is selected by some draw, so no candidate is unreachable. */
  lemma IndexReachesEvery(n: nat, i: nat)
    requires i < n
    ensures var r: Draw := i as real / n as real; Index(r, n) == i
  {
    var r: Draw := i as real / n as real;
    assert r * n as real == i as real;
  }

  /** The element a draw selects from a non-empty sequence. */
  function Choose<T>(items: seq<T>, r: Draw): (x: T)
    requires |items| > 0
    ensures x in items
  {
    items[Index(r, |items|)]
  }
}
