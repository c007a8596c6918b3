/** `Math.floor(Math.random() * n)`, with the draw of `Math.random()` passed in
    by the caller as `roll`, a number in [0, 1). */
module RandomDraw {

  predicate IsRoll(roll: real) { 0.0 <= roll < 1.0 }

  /** An index into a collection of `n` elements; 0 when there are none. */
  function Pick(roll: real, n: nat): (k: nat)
    requires IsRoll(roll)
    ensures n > 0 ==> k < n
    ensures n == 0 ==> k == 0
  {
    var x := roll * n as real;
    assert 0.0 <= x;
    assert n > 0 ==> x < n as real;
    x.Floor
  }

  /** Every index can be drawn: the roll `k / n` picks `k`. */
  lemma PickCovers(n: nat, k: nat)
    requires k < n
    ensures IsRoll(k as real / n as real) && Pick(k as real / n as real, n) == k
  {
    var roll := k as real / n as real;
    assert roll * n as real == k as real;
  }
}
