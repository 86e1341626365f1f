/** Bytes as numbers below 256, with the bitwise operators that the program applies to them. */
module Octets {

  type Byte = n: nat | n < 256

  type Bytes = seq<Byte>

  function Pow2(k: nat): (p: nat)
    ensures p > 0
  {
    if k == 0 then 1 else 2 * Pow2(k - 1)
  }

  /** Bit j of a number. */
  predicate BitAt(a: nat, j: nat)
    decreases j
  {
    if j == 0 then a % 2 == 1 else BitAt(a / 2, j - 1)
  }

  function Or(a: nat, b: nat): nat {
    if a == 0 && b == 0 then 0
    else (if a % 2 == 1 || b % 2 == 1 then 1 else 0) + 2 * Or(a / 2, b / 2)
  }

  function And(a: nat, b: nat): nat {
    if a == 0 || b == 0 then 0
    else (if a % 2 == 1 && b % 2 == 1 then 1 else 0) + 2 * And(a / 2, b / 2)
  }

  function Xor(a: nat, b: nat): nat {
    if a == 0 && b == 0 then 0 else (a + b) % 2 + 2 * Xor(a / 2, b / 2)
  }

  lemma {:induction false} ZeroHasNoBits(j: nat)
    ensures !BitAt(0, j)
  {
    if j > 0 {
      ZeroHasNoBits(j - 1);
    }
  }

  lemma {:induction false} OrHalves(a: nat, b: nat)
    ensures Or(a, b) % 2 == (if a % 2 == 1 || b % 2 == 1 then 1 else 0)
    ensures Or(a, b) / 2 == Or(a / 2, b / 2)
  {
    var r, h := if a % 2 == 1 || b % 2 == 1 then 1 else 0, Or(a / 2, b / 2);
    assert Or(a, b) == r + 2 * h;
  }

  lemma {:induction false} BitOfOr(a: nat, b: nat, j: nat)
    ensures BitAt(Or(a, b), j) <==> BitAt(a, j) || BitAt(b, j)
    decreases j
  {
    OrHalves(a, b);
    if j > 0 {
      BitOfOr(a / 2, b / 2, j - 1);
    }
  }

  lemma {:induction false} BitOfPow2(i: nat, j: nat)
    ensures BitAt(Pow2(i), j) <==> i == j
    decreases i
  {
    if i == 0 {
      if j > 0 {
        ZeroHasNoBits(j - 1);
      }
    } else if j > 0 {
      BitOfPow2(i - 1, j - 1);
    }
  }

  /** Testing against a one-bit mask tests that bit. */
  lemma {:induction false} AndPow2(a: nat, j: nat)
    ensures And(a, Pow2(j)) != 0 <==> BitAt(a, j)
    decreases j
  {
    if a == 0 {
      ZeroHasNoBits(j);
    } else if j > 0 {
      AndPow2(a / 2, j - 1);
      assert Pow2(j) / 2 == Pow2(j - 1) && Pow2(j) % 2 == 0;
    } else {
      assert And(a / 2, 0) == 0;
    }
  }

  lemma {:induction false} OrFits(a: nat, b: nat, k: nat)
    requires a < Pow2(k) && b < Pow2(k)
    ensures Or(a, b) < Pow2(k)
    decreases k
  {
    if k > 0 {
      OrFits(a / 2, b / 2, k - 1);
      OrHalves(a, b);
    }
  }

  /** Numbers of k bits that agree in every bit are equal. */
  lemma {:induction false} SameBits(a: nat, b: nat, k: nat)
    requires a < Pow2(k) && b < Pow2(k)
    requires forall j :: 0 <= j < k ==> (BitAt(a, j) <==> BitAt(b, j))
    ensures a == b
    decreases k
  {
    if k > 0 {
      assert BitAt(a, 0) <==> BitAt(b, 0);
      forall j | 0 <= j < k - 1 ensures BitAt(a / 2, j) <==> BitAt(b / 2, j) {
        assert BitAt(a, j + 1) <==> BitAt(b, j + 1);
      }
      SameBits(a / 2, b / 2, k - 1);
    }
  }

  lemma Pow2Eight()
    ensures Pow2(8) == 256
  {
    assert Pow2(4) == 16;
  }

  lemma {:induction false} Pow2Grows(a: nat, b: nat)
    requires a <= b
    ensures Pow2(a) <= Pow2(b)
    decreases b
  {
    if a < b {
      Pow2Grows(a, b - 1);
    }
  }

  // ---------- a byte with one more bit ----------

  function Mask(j: nat): (m: Byte)
    requires j < 8
  {
    Pow2Eight();
    assert Pow2(j) < 256 by { assert Pow2(j) <= Pow2(7) by { Pow2Grows(j, 7); } }
    Pow2(j)
  }

  function WithBit(b: Byte, j: nat): (r: Byte)
    requires j < 8
  {
    Pow2Eight();
    OrFits(b, Mask(j), 8);
    Or(b, Mask(j))
  }

  lemma BitOfWithBit(b: Byte, j: nat, i: nat)
    requires j < 8
    ensures BitAt(WithBit(b, j), i) <==> i == j || BitAt(b, i)
  {
    BitOfOr(b, Mask(j), i);
    BitOfPow2(j, i);
  }
}
