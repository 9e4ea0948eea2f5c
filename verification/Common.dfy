/** What several of the models share: optional values, bytes, and small facts about numbers and sets. */
module Common {

  /** A value that may be absent. */
  datatype Option<+T> = None | Some(value: T)

  type byte = x: int | 0 <= x < 256

  const TWO_TO_THE_32 := 0x1_0000_0000

  function Max(a: int, b: int): int { if a < b then b else a }

  function Minimum(a: int, b: int): int { if a <= b then a else b }

  lemma SubsetIsSmaller<T>(a: set<T>, b: set<T>)
    requires a <= b
    ensures |a| <= |b|
  {
    assert b == a + (b - a);
  }
}
