/** Small shared vocabulary: optional values, outcomes, and sums over finite sets. */
module Prelude {

  datatype Option<+T> = None | Some(value: T)

  datatype Result<+T, +E> = Ok(value: T) | Err(error: E) {
    predicate IsFailure() { Err? }
    function PropagateFailure<U>(): Result<U, E>
      requires Err?
    {
      Err(error)
    }
    function Extract(): T
      requires Ok?
    {
      value
    }
  }

  const U32_MAX: nat := 0xFFFF_FFFF
  const U64_MAX: nat := 0xFFFF_FFFF_FFFF_FFFF

  function Min(a: int, b: int): int { if a <= b then a else b }

  function Max(a: int, b: int): int { if a <= b then b else a }

  /** `u64::saturating_sub` on natural numbers. */
  function SatSub(a: nat, b: nat): nat { if a < b then 0 else a - b }

  /** `u64::saturating_add`. */
  function SatAdd(a: nat, b: nat): nat { Min(a + b, U64_MAX) }

  /** The sum of a natural weight over a finite set of keys. */
  ghost function Sum<K(!new)>(keys: set<K>, weight: K -> nat): nat {
    if keys == {} then 0
    else
      var k :| k in keys;
      weight(k) + Sum(keys - {k}, weight)
  }

  /** Any member may be taken out of a sum first. */
  lemma {:induction false} SumTakes<K(!new)>(keys: set<K>, weight: K -> nat, k: K)
    requires k in keys
    ensures Sum(keys, weight) == weight(k) + Sum(keys - {k}, weight)
  {
    var c :| c in keys && Sum(keys, weight) == weight(c) + Sum(keys - {c}, weight);
    if c != k {
      SumTakes(keys - {c}, weight, k);
      SumTakes(keys - {k}, weight, c);
      assert keys - {c} - {k} == keys - {k} - {c};
    }
  }

  /** Sums only grow with the key set. */
  lemma {:induction false} SumMonotone<K(!new)>(small: set<K>, large: set<K>, weight: K -> nat)
    requires small <= large
    ensures Sum(small, weight) <= Sum(large, weight)
  {
    if small != {} {
      var k :| k in small;
      SumTakes(small, weight, k);
      SumTakes(large, weight, k);
      SumMonotone(small - {k}, large - {k}, weight);
    }
  }

  /** Only the weights of the keys summed matter. */
  lemma {:induction false} SumSame<K(!new)>(keys: set<K>, f: K -> nat, g: K -> nat)
    requires forall k :: k in keys ==> f(k) == g(k)
    ensures Sum(keys, f) == Sum(keys, g)
  {
    if keys != {} {
      var k :| k in keys;
      SumTakes(keys, f, k);
      SumTakes(keys, g, k);
      SumSame(keys - {k}, f, g);
    }
  }
}
