/** The random draws the mock-data sources make. Every `Math.random()` (or
    faker's generator) call becomes an input of type `Unit`, so the model is
    deterministic in its draws and makes no claim about their distribution. */
module Random {

  /** A value `Math.random()` can return. */
  type Unit = r: real | 0.0 <= r < 1.0

  /** `Math.floor(u * n)`: an index into a list of length `n`. */
  function Pick(u: Unit, n: nat): (k: nat)
    requires n > 0
    ensures k < n
  {
    var x := u * n as real;
    assert 0.0 <= x < n as real;
    x.Floor
  }

  /** `faker.number.int({ min, max })`: `Math.floor(u * (max - min + 1) + min)`. */
  function FakerInt(lo: int, hi: int, u: Unit): (k: int)
    requires lo <= hi
    ensures lo <= k <= hi
  {
    lo + Pick(u, hi - lo + 1)
  }

  /** `faker.helpers.arrayElement(pool)`: the element at a `faker.number.int`
      index between 0 and the last index. */
  function ArrayElement<T>(pool: seq<T>, u: Unit): (x: T)
    requires |pool| > 0
    ensures x in pool
  {
    pool[FakerInt(0, |pool| - 1, u)]
  }
}
