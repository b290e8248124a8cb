/** Shifting the divisor so that its leading word has just four leading zero bits, which is what makes
    one correction of each quotient enough. */
module Aligning {
  import opened Words
  import opened Bignum

  /** If the top `d` bits of `x` are zero, shifts it left by `d`. */
  method DropBits(ghost x0: Word32, k0: nat, x: Word32, d: nat) returns (k: nat, y: Word32)
    requires x == x0 * Pow(2, k0) && d < 32
    ensures y == x0 * Pow(2, k) && k0 <= k <= k0 + d
    ensures x < Pow(2, 32 - d) ==> y == x * Pow(2, d)
    ensures x >= Pow(2, 32 - d) ==> y == x
  {
    k, y := k0, x;
    if x < Pow(2, 32 - d) {
      PowAdd(2, k0, d);
      PowAdd(2, 32 - d, d);
      Pow2Word();
      Assoc(x0, Pow(2, k0), Pow(2, d));
      Monotone(x, Pow(2, 32 - d) - 1, Pow(2, d));
      Distribute(Pow(2, 32 - d), 1, Pow(2, d));
      k, y := k0 + d, x * Pow(2, d);
    }
  }

  lemma PowerTable()
    ensures Pow(2, 0) == 1 && Pow(2, 2) == 4 && Pow(2, 4) == 16 && Pow(2, 8) == 0x100 && Pow(2, 16) == 0x1_0000
    ensures Pow(2, 24) == 0x100_0000 && Pow(2, 28) == 0x1000_0000 && Pow(2, 30) == 0x4000_0000
    ensures Pow(2, 31) == 0x8000_0000
    ensures Pow(2, 32) == WORD
  {
    assert Pow(2, 2) == 4;
    PowAdd(2, 2, 2);
    PowAdd(2, 4, 4);
    PowAdd(2, 8, 8);
    PowAdd(2, 16, 8);
    PowAdd(2, 24, 4);
    PowAdd(2, 28, 2);
  }

  /** `hi0bits`: the number of leading zero bits of a word. */
  method Hi0Bits(x0: Word32) returns (k: nat)
    ensures if x0 == 0 then k == 32 else k <= 31 && Pow(2, 31 - k) <= x0 < Pow(2, 32 - k)
  {
    hide Pow;
    PowerTable();
    var x := x0;
    k := 0;
    k, x := DropBits(x0, k, x, 16);
    k, x := DropBits(x0, k, x, 8);
    k, x := DropBits(x0, k, x, 4);
    k, x := DropBits(x0, k, x, 2);
    ghost var k2 := k;
    if x < 0x8000_0000 {
      k := k + 1;
      if x < 0x4000_0000 {
        assert x0 == 0 || 1 <= x;
        return 32;
      }
    }
    LeadingBits(x0, k2, x, k);
  }

  lemma LeadingBits(x0: Word32, k2: nat, x: Word32, k: nat)
    requires x == x0 * Pow(2, k2) && k2 <= 30 && 1 <= x0
    requires if x < 0x8000_0000 then 0x4000_0000 <= x && k == k2 + 1 else k == k2
    ensures k <= 31 && Pow(2, 31 - k) <= x0 < Pow(2, 32 - k)
  {
    hide Pow;
    PowerTable();
    PowAdd(2, 31 - k, k2);
    PowAdd(2, 32 - k, k2);
    var p := Pow(2, k2);
    if x0 < Pow(2, 31 - k) {
      Monotone(x0 + 1, Pow(2, 31 - k), p);
      Distribute(x0, 1, p);
    }
    if x0 >= Pow(2, 32 - k) {
      Monotone(Pow(2, 32 - k), x0, p);
    }
  }

  /** By how much more to shift, given the number of bits of the divisor and how far it is shifted anyway. */
  function ExtraShift(bits: nat, s2: nat): (i: nat)
    ensures (bits + s2 + i) % 32 == 28 && i < 32
  {
    var m := (bits + s2) % 32;
    var i := if m == 0 then 0 else 32 - m;
    if i > 4 then i - 4 else if i < 4 then i + 28 else 0
  }

  /** A number of which the number of bits is 28 modulo 32 is aligned. */
  lemma AlignedBits(S: Bigint, n: nat)
    requires S.Normal() && Pow(2, 32 * n + 27) <= S.Value() < Pow(2, 32 * n + 28)
    ensures Aligned(S)
  {
    hide Pow, Weight;
    PowAdd(2, 32 * n, 27);
    PowAdd(2, 32 * n, 28);
    PowAdd(2, 27, 1);
    PowerTable();
    assert Pow(2, 1) == 2 && Pow(2,
           27) == 0x800_0000 by { PowAdd(2, 1, 1); PowAdd(2, 24, 2); PowAdd(2, 26, 1); assert Pow(2,
           1) == 2 by { OneBit(); } }
    WeightPow2(n);
    var w := Weight(n);
    WeightNext(n);
    Monotone(0x1000_0000, WORD, w);
    WordsOf(S, n + 1);
    S.ZeroIfEmpty();
    Monotone(1, 0x800_0000, w);
    if S.wds <= n {
      WeightMono(S.wds, n);
    }
    TopOf(S, w);
  }

  lemma OneBit()
    ensures Pow(2, 1) == 2
  {
    assert Pow(2, 0) == 1;
  }

  lemma TopOf(S: Bigint, w: nat)
    requires S.Normal() && 1 <= S.wds && w == Weight(S.wds - 1) && 0x800_0000 * w <= S.Value() < 0x1000_0000 * w
    ensures 0x800_0000 <= S.x[S.wds - 1] < 0x1000_0000
  {
    hide Weight;
    var t := S.x[S.wds - 1];
    ValTop(S.x[..S.wds]);
    if t < 0x800_0000 {
      Monotone(t + 1, 0x800_0000, w);
    }
    if t >= 0x1000_0000 {
      Monotone(0x1000_0000, t, w);
    }
  }

  /** The number of bits of a number, given that of its leading word. */
  lemma BitsOf(S: Bigint, bits: nat)
    requires S.Normal() && 1 <= S.wds && 1 <= bits <= 32 && Pow(2, bits - 1) <= S.x[S.wds - 1] < Pow(2, bits)
    ensures Pow(2, 32 * (S.wds - 1) + bits - 1) <= S.Value() < Pow(2, 32 * (S.wds - 1) + bits)
  {
    hide Pow, Weight;
    var n := S.wds - 1;
    WeightPow2(n);
    PowAdd(2, 32 * n, bits - 1);
    PowAdd(2, 32 * n, bits);
    ValTop(S.x[..S.wds]);
    assert S.x[..S.wds][..n] == S.x[..n];
    TopDecides(Pow(2, bits - 1), S.x[n], Pow(2, bits), Weight(n), Val(S.x[..n]));
  }

  /** A leading digit decides between what bounds a number lies. */
  lemma TopDecides(lo: int, t: int, hi: int, w: int, rest: int)
    requires lo <= t < hi && 0 <= rest < w
    ensures lo * w <= t * w + rest < hi * w
  {
    Monotone(lo, t, w);
    Monotone(t + 1, hi, w);
  }

  /** Shifting by `e` bits makes the number of bits 28 modulo 32. */
  lemma ShiftedBits(v: nat, m: nat, bits: nat, e: nat, v1: nat)
    requires 1 <= bits <= 32 && Pow(2, 32 * m + bits - 1) <= v < Pow(2, 32 * m + bits) && v1 == v * Pow(2, e)
    requires (bits + e) % 32 == 28
    ensures var n := m + (bits + e) / 32; Pow(2, 32 * n + 27) <= v1 < Pow(2, 32 * n + 28)
  {
    hide Pow;
    var b := 32 * m + bits;
    PowAdd(2, b - 1, e);
    PowAdd(2, b, e);
    Monotone(Pow(2, b - 1), v, Pow(2, e));
    Monotone(v + 1, Pow(2, b), Pow(2, e));
    Distribute(v, 1, Pow(2, e));
  }

  /** Aligns the divisor, which is to be shifted by `s2` bits anyway; without a factor of five it is one. */
  method AlignDivisor(pool: Pool, S: Bigint, s2: nat, five: bool) returns (S1: Bigint, i: nat)
    requires pool.Valid() && pool.Owns(S) && S.Normal() && 1 <= S.Value() && (!five ==> S.Value() == 1)
    requires (s2 + 31) / 32 + S.wds + 1 <= 0x8000
    modifies pool`freelist, pool`free, pool.free
    ensures pool.Valid() && pool.Owns(S1) && Aligned(S1) && S1.Value() == old(S.Value()) * Pow(2, s2 + i) && i < 32
  {
    hide ListsOk, Val, Weight, Pow;
    S.ZeroIfEmpty();
    LeadNonZero(S);
    var bits := 1;
    if five {
      var h := Hi0Bits(S.x[S.wds - 1]);
      bits := 32 - h;
    } else {
      OneWord(S);
    }
    BitsOf(S, bits);
    i := ExtraShift(bits, s2);
    S1 := S;
    ghost var v, m := S.Value(), S.wds - 1;
    ZerothPower(2);
    if s2 + i > 0 {
      S1 := pool.LShift(S, s2 + i);
    }
    ShiftedBits(v, m, bits, s2 + i, S1.Value());
    AlignedBits(S1, m + (bits + (s2 + i)) / 32);
  }

  lemma LeadNonZero(S: Bigint)
    requires S.Normal() && 1 <= S.wds && 1 <= S.Value()
    ensures S.x[S.wds - 1] != 0
  {
    if S.wds == 1 {
      ZeroWords(S);
    }
  }

  lemma OneWord(S: Bigint)
    requires S.Normal() && 1 <= S.wds && S.Value() == 1
    ensures S.wds == 1 && S.x[0] == 1 && Pow(2, 0) == 1 && Pow(2, 1) == 2
  {
    OneBit();
    WeightNext(0);
    WordsOf(S, 1);
    ZeroWords(S);
  }
}
