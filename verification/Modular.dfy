/** Counting modulo a positive size. */
module Modular {

  /** The residue after k. */
  function NextResidue(k: nat, size: nat): nat {
    if k + 1 == size then 0 else k + 1
  }

  lemma ModSuccessor(pos: nat, size: nat)
    requires size > 0
    ensures pos % size < size
    ensures (pos + 1) % size == NextResidue(pos % size, size)
  {
    var q, r := pos / size, pos % size;
    if r + 1 == size {
      Distribute(q, size);
      RemainderIsUnique(pos + 1, q + 1, 0, size);
    } else {
      RemainderIsUnique(pos + 1, q, r + 1, size);
    }
  }

  lemma Distribute(q: int, size: nat)
    ensures (q + 1) * size == q * size + size
  {
  }

  /** A remainder below the size is the remainder. */
  lemma RemainderIsUnique(n: nat, q: int, r: int, size: nat)
    requires 0 <= r < size && n == q * size + r
    ensures n % size == r
  {
    var q', r' := n / size, n % size;
    assert n == q' * size + r';
    Difference(q, q', size);
    if q - q' >= 1 {
      TimesAtLeast(q - q', size);
    } else if q' - q >= 1 {
      Difference(q', q, size);
      TimesAtLeast(q' - q, size);
    }
  }

  lemma Difference(a: int, b: int, size: nat)
    ensures (a - b) * size == a * size - b * size
  {
  }

  lemma TimesAtLeast(d: int, size: nat)
    requires d >= 1
    ensures d * size >= size
  {
  }
}
