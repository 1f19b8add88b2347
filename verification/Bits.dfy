/** 32-bit words bit by bit; a bit is named by the word in which it alone is on. */
module Bits {

  predicate IsBit(m: bv32) {
    m != 0 && m & (m - 1) == 0
  }

  /** Bit m is on in b. */
  predicate On(b: bv32, m: bv32) {
    b & m != 0
  }

  lemma OnInAnd(a: bv32, b: bv32, m: bv32)
    requires IsBit(m)
    ensures On(a & b, m) <==> On(a, m) && On(b, m)
  {
  }

  lemma OnInOr(a: bv32, b: bv32, m: bv32)
    ensures On(a | b, m) <==> On(a, m) || On(b, m)
  {
    if !On(a, m) && !On(b, m) {
      OffInOr(a, b, m);
    } else if On(a, m) {
      StaysInOr(a, b, m);
    } else {
      StaysInOr(b, a, m);
      assert a | b == b | a;
    }
  }

  lemma OffInOr(a: bv32, b: bv32, m: bv32)
    requires a & m == 0 && b & m == 0
    ensures (a | b) & m == 0
  {
  }

  lemma StaysInOr(a: bv32, b: bv32, m: bv32)
    requires a & m != 0
    ensures (a | b) & m != 0
  {
  }

  lemma OnInNot(a: bv32, m: bv32)
    requires IsBit(m)
    ensures On(!a, m) <==> !On(a, m)
  {
  }

  lemma OnAfterClear(a: bv32, b: bv32, m: bv32)
    requires IsBit(m)
    ensures On(a & !b, m) <==> On(a, m) && !On(b, m)
  {
    if !On(a, m) {
      OffBefore(a, b, m);
    } else if On(b, m) {
      Cleared(a, b, m);
    } else {
      NotCleared(a, b, m);
    }
  }

  lemma OffBefore(a: bv32, b: bv32, m: bv32)
    requires a & m == 0
    ensures (a & !b) & m == 0
  {
  }

  lemma Cleared(a: bv32, b: bv32, m: bv32)
    requires m & (m - 1) == 0 && b & m != 0
    ensures (a & !b) & m == 0
  {
  }

  lemma NotCleared(a: bv32, b: bv32, m: bv32)
    requires a & m != 0 && b & m == 0
    ensures (a & !b) & m != 0
  {
  }

  lemma Off(a: bv32, b: bv32, m: bv32) returns (c: bv32)
    requires IsBit(m)
    ensures c == a & !b
    ensures On(c, m) <==> On(a, m) && !On(b, m)
  {
    c := a & !b;
    OnAfterClear(a, b, m);
  }

  /** The lowest bit of x. */
  lemma SomeBit(x: bv32) returns (m: bv32)
    requires x != 0
    ensures IsBit(m) && On(x, m)
  {
    m := x & (0 - x);
  }

  lemma Missing(a: bv32, b: bv32)
    requires a & b != b
    ensures b & !a != 0
  {
  }

  /** b lies within a exactly if each of its bits is on in a. */
  lemma AllIff(a: bv32, b: bv32)
    ensures a & b == b <==> forall m :: IsBit(m) && On(b, m) ==> On(a, m)
  {
    if a & b != b {
      LacksOne(a, b);
    } else {
      forall m | IsBit(m) && On(b, m) ensures On(a, m) {
        OnInAnd(a, b, m);
      }
    }
  }

  lemma Outside(a: bv32, b: bv32, m: bv32)
    requires IsBit(m) && On(b & !a, m)
    ensures On(b, m) && !On(a, m)
  {
    OnInAnd(b, !a, m);
    OnInNot(a, m);
  }

  lemma LacksOne(a: bv32, b: bv32)
    requires a & b != b
    ensures exists m :: IsBit(m) && On(b, m) && !On(a, m)
  {
    Missing(a, b);
    var m := SomeBit(b & !a);
    Outside(a, b, m);
  }

  /** a and b meet exactly if some bit is on in both. */
  lemma AnyIff(a: bv32, b: bv32)
    ensures a & b != 0 <==> exists m :: IsBit(m) && On(b, m) && On(a, m)
  {
    if a & b != 0 {
      var m := SomeBit(a & b);
      OnInAnd(a, b, m);
    } else {
      forall m | IsBit(m) && On(b, m) ensures !On(a, m) {
        OnInAnd(a, b, m);
      }
    }
  }
}
