/** Unsigned 64-bit arithmetic with wrap-around, as Go's `uint64` has it. */
module MachineInts {
  const TWO_64: int := 0x1_0000_0000_0000_0000

  type uint64 = x: int | 0 <= x < TWO_64

  /** The `uint64` that an unbounded result is truncated to. */
  function Wrap(x: int): uint64 {
    x % TWO_64
  }

  /** The word has 64 bits. */
  lemma {:induction false} WordSize(k: int)
    ensures Wrap(0 - 1) == 18_446_744_073_709_551_615
    ensures Wrap(k * 18_446_744_073_709_551_616) == 0
  {
    ModShift(0, k);
  }

  lemma WrapOfExact(x: int)
    ensures Wrap(x) == x <==> 0 <= x < TWO_64
  {
  }

  /** Truncating an intermediate result changes nothing that a later truncation sees. */
  lemma WrapAbsorbs(x: int, y: int)
    ensures Wrap(Wrap(x) + y) == Wrap(x + y)
  {
    var q := x / TWO_64;
    assert x == q * TWO_64 + Wrap(x);
    assert x + y == q * TWO_64 + (Wrap(x) + y);
    ModShift(Wrap(x) + y, q);
  }

  lemma ModShift(a: int, q: int)
    ensures (q * TWO_64 + a) % TWO_64 == a % TWO_64
  {
    var d := a / TWO_64;
    var r := a % TWO_64;
    assert q * TWO_64 + a == (q + d) * TWO_64 + r;
  }

  lemma ProductIsNat(a: int, b: int)
    requires 0 <= a && 0 <= b
    ensures 0 <= a * b
  {
  }

  lemma ScaleMonotone(a: int, b: int, c: int)
    requires a <= b && 0 <= c
    ensures a * c <= b * c
  {
  }
}
