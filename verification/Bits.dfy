/** Bitwise operations on numbers. */
module Bits {
  import opened Words

  /** Bitwise exclusive or. */
  function Xor(x: nat, y: nat): nat {
    if x == 0 then y else if y == 0 then x else 2 * Xor(x / 2, y / 2) + (x + y) % 2
  }

  /** Bitwise and. */
  function And(x: nat, y: nat): nat {
    if x == 0 || y == 0 then 0 else 2 * And(x / 2, y / 2) + (x % 2) * (y % 2)
  }

  /** Bitwise or. */
  function Or(x: nat, y: nat): nat {
    if x == 0 then y else if y == 0 then x
    else 2 * Or(x / 2, y / 2) + if x % 2 == 1 || y % 2 == 1 then 1 else 0
  }

  // ---- Exclusive or ----

  lemma XorStep(x: nat, y: nat)
    ensures Xor(x, y) / 2 == Xor(x / 2, y / 2) && Xor(x, y) % 2 == (x + y) % 2
  {
  }

  /** Bit `k` of the exclusive or is set if it is set in just one of the numbers. */
  lemma {:induction false} XorBit(x: nat, y: nat, k: nat)
    ensures Xor(x, y) / Pow(2, k) % 2 == (x / Pow(2, k) + y / Pow(2, k)) % 2
    decreases k
  {
    XorStep(x, y);
    if k > 0 {
      XorBit(x / 2, y / 2, k - 1);
      HalfQuotient(x, k);
      HalfQuotient(y, k);
      HalfQuotient(Xor(x, y), k);
    }
  }

  lemma HalfQuotient(x: nat, k: nat)
    requires k > 0
    ensures x / Pow(2, k) == x / 2 / Pow(2, k - 1)
  {
    var p := Pow(2, k - 1);
    var h := x / 2;
    var q, r := h / p, h % p;
    assert h == p * q + r;
    Assoc(2, q, p);
    DivMod(x, 2 * p, q, 2 * r + x % 2);
  }

  lemma {:induction false} XorAssoc(x: nat, y: nat, z: nat)
    ensures Xor(Xor(x, y), z) == Xor(x, Xor(y, z))
    decreases x + y + z
  {
    if x + y + z > 0 {
      XorAssoc(x / 2, y / 2, z / 2);
      AssocStep(x, y, z);
    }
  }

  lemma AssocStep(x: nat, y: nat, z: nat)
    requires Xor(Xor(x / 2, y / 2), z / 2) == Xor(x / 2, Xor(y / 2, z / 2))
    ensures Xor(Xor(x, y), z) == Xor(x, Xor(y, z))
  {
    hide Xor;
    var a, b := Xor(x, y), Xor(y, z);
    XorStep(x, y);
    XorStep(y, z);
    XorStep(a, z);
    XorStep(x, b);
    Parity(x, y, z, a, b);
    SameHalves(Xor(a, z), Xor(x, b));
  }

  lemma Parity(x: nat, y: nat, z: nat, a: nat, b: nat)
    requires a % 2 == (x + y) % 2 && b % 2 == (y + z) % 2
    ensures (a + z) % 2 == (x + b) % 2
  {
  }

  lemma SameHalves(l: nat, r: nat)
    requires l / 2 == r / 2 && l % 2 == r % 2
    ensures l == r
  {
  }

  lemma {:induction false} XorSelf(x: nat)
    ensures Xor(x, x) == 0
  {
    if x > 0 {
      XorSelf(x / 2);
    }
  }

  lemma XorZero(x: nat)
    ensures Xor(x, 0) == x
  {
  }

  lemma {:induction false} XorSwap(x: nat, y: nat)
    ensures Xor(x, y) == Xor(y, x)
    decreases x
  {
    if x > 0 && y > 0 {
      XorSwap(x / 2, y / 2);
    }
  }

  /** Different numbers have different exclusive ors with the same number. */
  lemma XorApart(x: nat, y: nat, z: nat)
    requires y != z
    ensures Xor(x, y) != Xor(x, z)
  {
    XorAssoc(x, x, y);
    XorAssoc(x, x, z);
    XorSelf(x);
  }

  // ---- Masks ----

  lemma AndOdd(x: nat, p: nat)
    requires x > 0 && p > 0
    ensures And(x, 2 * p - 1) == 2 * And(x / 2, p - 1) + x % 2
  {
  }

  /** Masking with a power of two less one is the remainder. */
  lemma {:induction false} Mask(x: nat, k: nat)
    ensures And(x, Pow(2, k) - 1) == x % Pow(2, k)
  {
    if x > 0 && k > 0 {
      Mask(x / 2, k - 1);
      AndOdd(x, Pow(2, k - 1));
      HalfRemainder(x, Pow(2, k - 1));
    }
  }

  lemma HalfRemainder(x: nat, p: nat)
    requires p > 0
    ensures x % (2 * p) == 2 * (x / 2 % p) + x % 2
  {
    var h := x / 2;
    var q, r := h / p, h % p;
    assert h == p * q + r;
    Assoc(2, q, p);
    DivMod(x, 2 * p, q, 2 * r + x % 2);
  }

  /** Numbers without common bits are added. */
  lemma {:induction false} OrAdds(x: nat, y: nat, k: nat)
    requires x < Pow(2, k)
    ensures Or(x, y * Pow(2, k)) == x + y * Pow(2, k)
  {
    if k > 0 && x > 0 && y > 0 {
      var p := Pow(2, k - 1);
      Assoc(2, y, p);
      Positive(y, p);
      OrAdds(x / 2, y, k - 1);
      OrEven(x, y * p);
    }
  }

  lemma OrEven(x: nat, z: nat)
    requires x > 0 && z > 0
    ensures Or(x, 2 * z) == 2 * Or(x / 2, z) + x % 2
  {
    assert 2 * z / 2 == z && 2 * z % 2 == 0;
  }
}
