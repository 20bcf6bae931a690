/** Small datatypes and helpers shared by the models. */
module Prelude {

  datatype Option<+T> = None | Some(value: T)

  datatype Result<+T, +E> = Ok(value: T) | Err(error: E)

  function Min(a: int, b: int): int { if a <= b then a else b }

  function Max(a: int, b: int): int { if a >= b then a else b }

  // ---- 64-bit integers ----

  const MAX64 := 0x7FFF_FFFF_FFFF_FFFF
  const MIN64 := -0x8000_0000_0000_0000

  predicate Is64(x: int) { MIN64 <= x <= MAX64 }

  /** The int64 value of an integer result. */
  function Wrap(x: int): (w: int)
    ensures Is64(w) && (x - w) % 0x1_0000_0000_0000_0000 == 0
    ensures Is64(x) ==> w == x
  {
    (x - MIN64) % 0x1_0000_0000_0000_0000 + MIN64
  }

  lemma ScaleMonotone(a: int, b: int, k: nat)
    requires a <= b
    ensures a * k <= b * k
  {
  }

  // ---- sets and tables of threads ----

  lemma SubsetSize<T>(a: set<T>, b: set<T>)
    requires a <= b
    ensures |a| <= |b|
  {
    assert b == a + (b - a);
  }

  /** The threads of a table whose program point satisfies `p`. */
  function Those<P>(threads: map<nat, P>, p: P -> bool): set<nat> {
    set t | t in threads && p(threads[t])
  }

  /** How the number of such threads changes when one thread moves. */
  lemma Recount<P>(threads: map<nat, P>, t: nat, x: P, p: P -> bool)
    ensures |Those(threads[t := x], p)|
            == |Those(threads, p)| - (if t in threads && p(threads[t]) then 1 else 0) + (if p(x) then 1 else 0)
  {
    var before, after := Those(threads, p), Those(threads[t := x], p);
    assert after == (if p(x) then before + {t} else before - {t});
  }
}
