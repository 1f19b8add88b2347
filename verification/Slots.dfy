/** Equal slots in a byte buffer, as queues and memory pools use them. */
module Slots {

  /** The byte index at which slot i begins. */
  function Offset(i: nat, size: nat): nat {
    if i == 0 then 0 else Offset(i - 1, size) + size
  }

  lemma {:induction false} OffsetIsProduct(i: nat, size: nat)
    ensures Offset(i, size) == i * size
  {
    if i > 0 { OffsetIsProduct(i - 1, size); }
  }

  /** Slots do not overlap. */
  lemma {:induction false} OffsetOrder(i: nat, j: nat, size: nat)
    requires i < j
    ensures Offset(i, size) + size <= Offset(j, size)
    decreases j
  {
    if i + 1 < j { OffsetOrder(i, j - 1, size); }
  }

  lemma SmallMod(a: nat, b: nat)
    requires a < b
    ensures a % b == a
  {
  }

  lemma MulMono(a: nat, b: nat, size: nat)
    ensures a <= b ==> a * size <= b * size
    ensures (a + 1) * size == a * size + size
  {
  }

  lemma DivUnique(o: nat, size: nat, q: nat, r: nat)
    requires r < size && o == q * size + r
    ensures o / size == q && o % size == r
  {
    assert o == o / size * size + o % size;
    MulMono(q + 1, o / size, size);
    MulMono(o / size + 1, q, size);
    MulMono(q, o / size, size);
    MulMono(o / size, q, size);
  }

  /** An index below slot n is where a slot begins exactly when it is a multiple of the slot size. */
  lemma OffsetOf(o: nat, size: nat, n: nat)
    requires 0 < size && o < Offset(n, size)
    ensures o % size == 0 <==> o / size < n && Offset(o / size, size) == o
  {
    OffsetIsProduct(n, size);
    OffsetIsProduct(o / size, size);
    assert o == o / size * size + o % size;
    MulMono(n, o / size, size);
    DivUnique(o / size * size, size, o / size, 0);
  }
}
