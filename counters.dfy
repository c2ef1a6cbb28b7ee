/** `Counter`: a tally whose absent keys read as 0.  The model keeps the
    keys that were actually written, because the regrouping step copies
    every key observed in any daily bucket. */
module Counters {

  type Counter = map<string, int>

  /** Reading a key: the proxy's `name in target ? target[name] : 0`. */
  function Get(c: Counter, key: string): int {
    if key in c then c[key] else 0
  }

  /** `c[key] += n`: the key is written even when `n` is 0. */
  function Increment(c: Counter, key: string, n: int): (r: Counter)
    ensures r.Keys == c.Keys + {key}
    ensures Get(r, key) == Get(c, key) + n
    ensures forall other :: other != key ==> Get(r, other) == Get(c, other)
  {
    c[key := Get(c, key) + n]
  }

  /** Applying a map of increments to a counter. */
  function Add(c: Counter, inc: Counter): (r: Counter)
    ensures r.Keys == c.Keys + inc.Keys
    ensures forall key :: Get(r, key) == Get(c, key) + Get(inc, key)
  {
    map key | key in c.Keys + inc.Keys :: Get(c, key) + Get(inc, key)
  }

  /** A key never written reads 0, before and after other labels are written. */
  lemma UnwrittenReadsZero(c: Counter, key: string, other: string, n: int)
    requires key !in c && other != key
    ensures Get(c, key) == 0 && Get(Increment(c, other, n), key) == 0
  {
  }

  lemma AddEmpty(c: Counter)
    ensures Add(c, map[]) == c && Add(map[], c) == c
  {
    assert Add(c, map[]).Keys == c.Keys;
    assert Add(map[], c).Keys == c.Keys;
  }

  lemma AddCommutes(a: Counter, b: Counter)
    ensures Add(a, b) == Add(b, a)
  {
  }

  lemma AddAssociates(a: Counter, b: Counter, c: Counter)
    ensures Add(Add(a, b), c) == Add(a, Add(b, c))
  {
  }

  /** `Get(c, a) <= Get(c, b)`: key `a` never exceeds key `b`. */
  predicate Dominated(c: Counter, a: string, b: string) {
    Get(c, a) <= Get(c, b)
  }
}
