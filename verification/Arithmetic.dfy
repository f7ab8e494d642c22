/** Division with remainder, and slots of a ring. */
module Arithmetic {
  lemma {:induction false} MultipleSign(k: int, m: nat)
    ensures k >= 1 ==> k * m >= m
    ensures k <= 0 ==> k * m <= 0
  {
    if k >= 1 {
      assert (k - 1) * m >= 0;
    } else {
      assert -k * m >= 0;
    }
  }

  lemma {:induction false} DivisionUnique(a: nat, m: nat, k: int, r: int)
    requires m > 0 && a == k * m + r && 0 <= r < m
    ensures a % m == r && a / m == k
  {
    var k', r' := a / m, a % m;
    assert a == k' * m + r';
    assert (k' - k) * m == k' * m - k * m == r - r';
    assert (k - k') * m == k * m - k' * m == r' - r;
    MultipleSign(k' - k, m);
    MultipleSign(k - k', m);
  }

  lemma {:induction false} SlotsDiffer(i: nat, j: nat, size: nat)
    requires size > 0 && i < j < i + size
    ensures i % size != j % size
  {
    if i % size == j % size {
      SameSlot(i, j, size);
    }
  }

  lemma {:induction false} SameSlot(i: nat, j: nat, size: nat)
    requires size > 0 && i < j && i % size == j % size
    ensures j - i >= size
  {
    var a, b := i / size, j / size;
    assert i == a * size + i % size && j == b * size + j % size;
    assert (b - a) * size == b * size - a * size == j - i;
    MultipleSign(b - a, size);
  }
}
