/** Rounding to multiples. */
module Alignment {

  // The least multiple of the alignment that is at least `value`.
  function AlignUp(value: nat, alignment: nat): (aligned: nat)
    requires alignment > 0
    ensures value <= aligned < value + alignment && aligned % alignment == 0
  {
    var units := (value + alignment - 1) / alignment;
    MultipleOf(units, alignment);
    units * alignment
  }

  // The greatest multiple of the alignment that is at most `value`.
  function AlignDown(value: nat, alignment: nat): (aligned: nat)
    requires alignment > 0
    ensures aligned <= value < aligned + alignment && aligned % alignment == 0
  {
    MultipleOf(value / alignment, alignment);
    assert value - value % alignment == value / alignment * alignment;
    value - value % alignment
  }

  // Groups of `size` needed for n items.
  function Groups(n: nat, size: nat): (groups: nat)
    requires size > 0
    ensures n <= groups * size < n + size
  {
    (n + size - 1) / size
  }

  lemma MultipleOf(units: nat, alignment: nat)
    requires alignment > 0
    ensures units * alignment % alignment == 0
  {
    var x := units * alignment;
    var q, r := x / alignment, x % alignment;
    assert x == q * alignment + r;
    assert (units - q) * alignment == r;
    if units - q >= 1 {
      Grows(units - q, alignment);
    } else if units - q <= -1 {
      Grows(q - units, alignment);
    }
  }

  lemma Grows(k: nat, m: nat)
    requires k >= 1
    ensures k * m >= m
  {
  }

  lemma Scale(a: nat, b: nat, c: nat)
    requires a <= b
    ensures a * c <= b * c
  {
  }

  // Sums of multiples are multiples.
  lemma MultiplesAdd(a: nat, b: nat, alignment: nat)
    requires alignment > 0 && a % alignment == 0 && b % alignment == 0
    ensures (a + b) % alignment == 0
  {
    assert a == a / alignment * alignment && b == b / alignment * alignment;
    assert a + b == (a / alignment + b / alignment) * alignment;
    MultipleOf(a / alignment + b / alignment, alignment);
  }

  lemma GroupsMonotone(n: nat, m: nat, size: nat)
    requires size > 0 && n <= m
    ensures Groups(n, size) <= Groups(m, size)
  {
    var a, b := Groups(n, size), Groups(m, size);
    if a > b {
      Scale(b + 1, a, size);
    }
  }

  function Ceil(x: real): int {
    -((-x).Floor)
  }

  lemma CeilBounds(x: real)
    ensures x <= Ceil(x) as real < x + 1.0
  {
  }
}
