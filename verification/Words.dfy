/** Numbers written as sequences of 32-bit words, least significant word first. */
module Words {

  /** One more than the largest word, and than the largest half word. */
  const WORD := 0x1_0000_0000
  const HALF := 0x1_0000

  type Word32 = w: int | 0 <= w < 0x1_0000_0000

  function Lo(w: int): int {
    w % HALF
  }

  function Hi(w: int): int {
    w / HALF
  }

  /** An unsigned 32-bit result. */
  function Wrap(v: int): Word32 {
    v % WORD
  }

  lemma WrapSmall(v: int)
    ensures 0 <= v < WORD ==> Wrap(v) == v
  {
  }

  function Pow(b: nat, e: nat): (r: nat)
    ensures 1 <= b ==> 1 <= r
    decreases e
  {
    if e == 0 then 1
    else
      var p := Pow(b, e - 1);
      assert 1 <= b && 1 <= p ==> 1 <= b * p by { if 1 <= b && 1 <= p { Positive(b, p); } }
      b * p
  }

  lemma Positive(a: int, b: int)
    requires 1 <= a && 1 <= b
    ensures 1 <= a * b
  {
  }

  /** The weight of word `i`. */
  ghost function Weight(i: nat): (r: nat)
    ensures 1 <= r
  {
    Pow(WORD, i)
  }

  lemma WeightNext(i: nat)
    ensures Weight(i + 1) == WORD * Weight(i)
  {
  }

  ghost function Val(s: seq<Word32>): (v: nat)
    decreases |s|
  {
    if s == [] then 0
    else
      assert 0 <= s[|s| - 1] * Weight(|s| - 1) by { Product(s[|s| - 1], Weight(|s| - 1)); }
      Val(s[..|s| - 1]) + s[|s| - 1] * Weight(|s| - 1)
  }

  lemma Product(a: int, b: int)
    requires 0 <= a && 0 <= b
    ensures 0 <= a * b
  {
  }

  /** One more word. */
  lemma ValNext(s: seq<Word32>, i: nat)
    requires i < |s|
    ensures Val(s[..i + 1]) == Val(s[..i]) + s[i] * Weight(i)
  {
    assert s[..i + 1][..i] == s[..i];
  }

  lemma {:induction false} ValBound(s: seq<Word32>)
    ensures Val(s) < Weight(|s|)
    decreases |s|
  {
    if s != [] {
      var n := |s| - 1;
      ValBound(s[..n]);
      WeightNext(n);
      assert s[n] * Weight(n) <= (WORD - 1) * Weight(n) by { Monotone(s[n], WORD - 1, Weight(n)); }
      Distribute(WORD, 1, Weight(n));
    }
  }

  lemma Monotone(a: int, b: int, c: int)
    requires a <= b && 0 <= c
    ensures a * c <= b * c
  {
  }

  lemma Distribute(a: int, b: int, c: int)
    ensures (a - b) * c == a * c - b * c
    ensures (a + b) * c == a * c + b * c
  {
  }

  lemma DivMod(v: int, d: int, q: int, r: int)
    requires 1 <= d && v == q * d + r && 0 <= r < d
    ensures q == v / d && r == v % d
  {
    var q1, r1 := v / d, v % d;
    assert v == d * q1 + r1;
    Distribute(q, q1, d);
    if q > q1 {
      Monotone(1, q - q1, d);
    } else if q < q1 {
      Monotone(1, q1 - q, d);
      Distribute(q1, q, d);
    }
  }

  lemma {:induction false} WeightAdd(i: nat, j: nat)
    ensures Weight(i + j) == Weight(i) * Weight(j)
    decreases j
  {
    if j != 0 {
      WeightAdd(i, j - 1);
      WeightNext(i + j - 1);
      WeightNext(j - 1);
      Assoc(WORD, Weight(i), Weight(j - 1));
    }
  }

  lemma Assoc(a: int, b: int, c: int)
    ensures a * (b * c) == b * (a * c) == (a * b) * c
  {
  }

  /** Leading zeros do not count. */
  lemma {:induction false} ValZeros(s: seq<Word32>, n: nat)
    requires n <= |s| && forall i :: n <= i < |s| ==> s[i] == 0
    ensures Val(s) == Val(s[..n])
    decreases |s|
  {
    if n == |s| {
      assert s[..n] == s;
    } else {
      ValZeros(s[..|s| - 1], n);
      assert s[..|s| - 1][..n] == s[..n];
    }
  }

  /** With a non-zero leading word a number is at least as large as the weight of that word. */
  lemma ValLead(s: seq<Word32>)
    requires s != [] && s[|s| - 1] != 0
    ensures Weight(|s| - 1) <= Val(s)
  {
    Monotone(1, s[|s| - 1], Weight(|s| - 1));
  }

  /** The leading word determines the number up to the weight of that word. */
  lemma ValTop(s: seq<Word32>)
    requires s != []
    ensures s[|s| - 1] * Weight(|s| - 1) <= Val(s) < (s[|s| - 1] + 1) * Weight(|s| - 1)
  {
    ValBound(s[..|s| - 1]);
    Distribute(s[|s| - 1], 1, Weight(|s| - 1));
  }

  // ---- Multiplying by a half word ----

  /** Both halves of a word times `m` plus a carry, as multadd computes them. */
  lemma MulAddWord(xi: Word32, m: int, a: int)
    requires 0 <= m < HALF && 0 <= a < HALF
    ensures var y := Lo(xi) * m + a; var z := Hi(xi) * m + Hi(y);
            0 <= y < WORD && 0 <= z < WORD && Hi(z) < HALF && 0 <= Lo(z) * HALF + Lo(y) < WORD &&
            xi * m + a == (Lo(z) * HALF + Lo(y)) + WORD * Hi(z)
  {
    var y := Lo(xi) * m + a;
    HalfProduct(Lo(xi), m);
    HalfProduct(Hi(xi), m);
    var z := Hi(xi) * m + Hi(y);
    Distribute(Hi(xi) * HALF, Lo(xi), m);
    Assoc(HALF, Hi(xi), m);
    assert xi == Hi(xi) * HALF + Lo(xi);
  }

  lemma HalfProduct(a: int, b: int)
    requires 0 <= a < HALF && 0 <= b < HALF
    ensures 0 <= a * b <= (HALF - 1) * (HALF - 1)
  {
    Product(a, b);
    Monotone(a, HALF - 1, b);
    Monotone(b, HALF - 1, HALF - 1);
  }

  // ---- Powers ----

  lemma {:induction false} PowAdd(b: nat, i: nat, j: nat)
    ensures Pow(b, i + j) == Pow(b, i) * Pow(b, j)
    decreases j
  {
    if j != 0 {
      PowAdd(b, i, j - 1);
      Assoc(b, Pow(b, i), Pow(b, j - 1));
    }
  }

  lemma Pow2Word()
    ensures Pow(2, 32) == WORD && Pow(2, 15) == 0x8000
  {
    assert Pow(2, 4) == 16;
    PowAdd(2, 4, 4);
    PowAdd(2, 8, 8);
    PowAdd(2, 16, 16);
    PowAdd(2, 11, 4);
    PowAdd(2, 7, 4);
    assert Pow(2, 3) == 8;
    PowAdd(2, 3, 4);
  }

  /** Shifting by a number of words. */
  lemma {:induction false} WeightPow2(n: nat)
    ensures Weight(n) == Pow(2, 32 * n)
    decreases n
  {
    if n != 0 {
      WeightPow2(n - 1);
      WeightNext(n - 1);
      Pow2Word();
      PowAdd(2, 32 * (n - 1), 32);
    }
  }

  lemma Pow2Mono(i: nat, j: nat)
    requires i <= j
    ensures Pow(2, i) <= Pow(2, j)
    decreases j
  {
    if i < j {
      Pow2Mono(i, j - 1);
    }
  }

  /** A word shifted left by `s` bits, and the bits shifted out. */
  lemma ShiftWord(w: Word32, s: nat, z: int)
    requires 0 < s < 32 && 0 <= z < Pow(2, s)
    ensures Wrap(w * Pow(2, s)) + z < WORD
    ensures 0 <= w / Pow(2, 32 - s) < Pow(2, s)
    ensures w * Pow(2, s) + z == Wrap(w * Pow(2, s)) + z + WORD * (w / Pow(2, 32 - s))
  {
    hide Pow, Wrap;
    PowAdd(2, s, 32 - s);
    Pow2Word();
    Quotient(w, Pow(2, 32 - s));
    ShiftParts(w, Pow(2, s), Pow(2, 32 - s), w / Pow(2, 32 - s), w % Pow(2, 32 - s));
  }

  lemma Quotient(w: nat, r: nat)
    requires 1 <= r
    ensures w == r * (w / r) + w % r && 0 <= w % r < r && 0 <= w / r
  {
  }

  lemma ShiftParts(w: Word32, p: nat, r: nat, h: nat, l: nat)
    requires p * r == WORD && w == r * h + l && l < r && 1 <= p
    ensures 0 <= Wrap(w * p) <= WORD - p && h < p && w * p == Wrap(w * p) + WORD * h
  {
    hide Wrap;
    Distribute(r * h, l, p);
    Assoc(r, h, p);
    Assoc(h, r, p);
    assert w * p == WORD * h + l * p;
    Monotone(l, r - 1, p);
    Distribute(r, 1, p);
    Product(l, p);
    WrapOf(h, l * p);
    if h >= p {
      Monotone(p, h, r);
    }
  }

  lemma WrapOf(h: int, l: int)
    requires 0 <= l < WORD
    ensures Wrap(WORD * h + l) == l
  {
  }
}
