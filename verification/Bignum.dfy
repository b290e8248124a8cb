/** The arithmetic on big integers of dtoa.c, with its free lists and its cache of powers of five. */
module Bignum {
  import opened Words

  /** The number of the last free list. */
  const KMAX := 15

  /** A big integer: `wds` words of `x` are in use, of which there are 2 to the power `k`. */
  class Bigint {
    const k: nat
    var x: seq<Word32>
    var wds: nat
    var sign: bool

    constructor (k: nat)
      ensures this.k == k && Shaped()
    {
      this.k := k;
      x := seq(Pow(2, k), _ => 0);
      wds := 0;
      sign := false;
    }

    ghost predicate Shaped()
      reads this
    {
      |x| == Pow(2, k) && 1 <= |x|
    }

    /** A number may be written with no words at all only if it is zero. */
    ghost predicate Valid()
      reads this
    {
      Shaped() && wds <= |x| && (wds == 0 ==> x[0] == 0)
    }

    /** There are no leading zeros, but zero may be written with one word or with none. */
    ghost predicate Normal()
      reads this
    {
      Valid() && (wds > 1 ==> x[wds - 1] != 0)
    }

    ghost function Value(): nat
      requires wds <= |x|
      reads this
    {
      Val(x[..wds])
    }

    /** The number of words that a loop goes through whose body comes before its test. */
    function Used(): nat
      reads this
    {
      if wds == 0 then 1 else wds
    }

    lemma UsedValue()
      requires Valid()
      ensures Used() <= |x| && Val(x[..Used()]) == Value()
    {
      if wds == 0 {
        ValNext(x, 0);
        assert x[..0] == [];
      }
    }

    lemma ZeroIfEmpty()
      requires wds <= |x|
      ensures wds == 0 ==> Value() == 0
    {
    }

    /** The loop of `multadd`. */
    method MultiplyWords(m: int, a: int) returns (carry: int)
      requires Valid() && 0 <= m < HALF && 0 <= a < HALF
      modifies this`x
      ensures |x| == |old(x)| && 0 <= carry < HALF && x[Used()..] == old(x)[Used()..]
      ensures Val(x[..Used()]) + carry * Weight(Used()) == old(Value()) * m + a
    {
      hide Val, Weight, Pow;
      UsedValue();
      ghost var x0 := x;
      carry := a;
      NoWords(x, m, a);
      for i := 0 to Used()
        invariant |x| == |x0| && 0 <= carry < HALF && x[i..] == x0[i..]
        invariant Val(x[..i]) + carry * Weight(i) == Val(x0[..i]) * m + a
      {
        ghost var x1, a1 := x, carry;
        assert x[i] == x[i..][0] == x0[i];
        var w;
        w, carry := MultiplyWord(x[i], m, carry);
        x := x[i := w];
        assert x[..i] == x1[..i] && x[i + 1..] == x1[i..][1..];
        ProductStep(x0, x, i, Val(x1[..i]), m, a, a1, carry);
      }
    }

    /** Adds `y` times the number `xa`, shifted by `j` words: the first inner loop of `mult`. */
    method AddLow(xa: seq<Word32>, j: nat, y: int)
      requires 0 <= y < HALF && j + |xa| < |x| && x[j + |xa|] == 0
      modifies this`x
      ensures |x| == |old(x)| && x[j + |xa|] < HALF && x[j + |xa| + 1..] == old(x)[j + |xa| + 1..]
      ensures Val(x[..j + |xa| + 1]) == old(Val(x[..j + |xa| + 1])) + y * Val(xa) * Weight(j)
    {
      hide Val, Weight, Pow;
      ghost var x0 := x;
      var carry := 0;
      NoProduct(x, xa, j, y);
      for i := 0 to |xa|
        invariant |x| == |x0| && 0 <= carry < HALF && x[j + i..] == x0[j + i..]
        invariant Val(x[..j + i]) + carry * Weight(j + i) == Val(x0[..j + i]) + y * Val(xa[..i]) * Weight(j)
      {
        ghost var x1, carry1 := x, carry;
        assert x[j + i] == x[j + i..][0] == x0[j + i];
        var w;
        w, carry := AddWord(xa[i], y, x[j + i], carry);
        x := x[j + i := w];
        assert x[..j + i] == x1[..j + i] && x[j + i + 1..] == x1[j + i..][1..];
        AddStep(x0, x, xa, i, j, y, carry1, carry, Val(x1[..j + i]));
      }
      assert x[j + |xa|] == x[j + |xa|..][0] == x0[j + |xa|];
      ghost var x1 := x;
      x := x[j + |xa| := carry];
      assert x[..j + |xa|] == x1[..j + |xa|] && x[j + |xa| + 1..] == x1[j + |xa|..][1..] && xa[..|xa|] == xa;
      ValNext(x, j + |xa|);
      ValNext(x0, j + |xa|);
    }

    /** Adds `y` times the number `xa`, shifted by `j` words and a half: the second inner loop of `mult`. */
    method AddHigh(xa: seq<Word32>, j: nat, y: int)
      requires 0 <= y < HALF && j + |xa| < |x| && x[j + |xa|] < HALF && xa != []
      modifies this`x
      ensures |x| == |old(x)| && x[j + |xa| + 1..] == old(x)[j + |xa| + 1..]
      ensures Val(x[..j + |xa| + 1]) == old(Val(x[..j + |xa| + 1])) + HALF * y * Val(xa) * Weight(j)
    {
      hide Val, Weight, Pow, Lo, Hi;
      ghost var x0 := x;
      var carry, z2 := 0, x[j];
      NoHighProduct(x, xa, j, y);
      for i := 0 to |xa|
        invariant |x| == |x0| && 0 <= carry < HALF && x[j + i..] == x0[j + i..] && 0 <= z2 < WORD
        invariant i > 0 ==> carry == Hi(z2)
        invariant Val(x[..j + i]) + Pending(z2, carry,
                  x0[j + i]) * Weight(j + i) == Val(x0[..j + i + 1]) + HALF * y * Val(xa[..i]) * Weight(j)
      {
        ghost var x1, t := x, Pending(z2, carry, x0[j + i]);
        assert x[j + i] == x[j + i..][0] == x0[j + i] && x[j + i + 1] == x[j + i..][1] == x0[j + i + 1];
        var w;
        w, z2, carry := AddHighWord(xa[i], y, x[j + i], x[j + i + 1], z2, carry);
        x := x[j + i := w];
        assert x[..j + i] == x1[..j + i] && x[j + i + 1..] == x1[j + i..][1..];
        AddHighStep(x0, x, xa, i, j, y, t, Pending(z2, carry, x0[j + i + 1]), Val(x1[..j + i]));
      }
      assert x[j + |xa|] == x[j + |xa|..][0] == x0[j + |xa|];
      ghost var x1 := x;
      x := x[j + |xa| := z2];
      assert x[..j + |xa|] == x1[..j + |xa|] && x[j + |xa| + 1..] == x1[j + |xa|..][1..] && xa[..|xa|] == xa;
      LastPending(z2, carry, x0[j + |xa|]);
      ValNext(x, j + |xa|);
    }

    /** Sets this number to the product of `xa` and `xb`: the loops of `mult`. */
    method SetProduct(xa: seq<Word32>, xb: seq<Word32>)
      requires |xa| + |xb| <= |x| && xa != []
      modifies this`x
      ensures |x| == |old(x)| && Val(x[..|xa| + |xb|]) == Val(xa) * Val(xb)
    {
      hide Val, Weight, Pow, Lo, Hi;
      var wa, wc := |xa|, |xa| + |xb|;
      ZeroWords(wc);
      ZeroPrefix(x, wa);
      for j := 0 to |xb|
        invariant |x| == |old(x)| && Val(x[..wa + j]) == Val(xa) * Val(xb[..j])
        invariant forall i :: wa + j <= i < wc ==> x[i] == 0
      {
        ghost var x0 := x;
        var y, z := Lo(xb[j]), Hi(xb[j]);
        HalvesOf(xb[j]);
        ValNext(x, wa + j);
        ghost var v := Val(x[..j + wa + 1]);
        assert j + wa + 1 == wa + j + 1;
        if y != 0 {
          AddLow(xa, j, y);
        } else {
          assert y * Val(xa) * Weight(j) == 0;
        }
        assert Val(x[..j + wa + 1]) == v + y * Val(xa) * Weight(j);
        assert forall i :: wa + j + 1 <= i < wc ==> x[i] == x[j + wa + 1..][i - (j + wa + 1)] == 0;
        if z != 0 {
          AddHigh(xa, j, z);
        } else {
          assert HALF * z * Val(xa) * Weight(j) == 0;
        }
        assert forall i :: wa + j + 1 <= i < wc ==> x[i] == x[j + wa + 1..][i - (j + wa + 1)] == 0;
        MultiplyStep(xb, j, y, z, Val(xa));
      }
      assert xb[..|xb|] == xb;
    }

    /** Subtracts `q` times the number `sx`: the loops of `quorem`. `t`, the borrow less the carry that is
        left over, is zero if the result is not negative. */
    method SubtractProduct(sx: seq<Word32>, q: int) returns (ghost t: int)
      requires 0 <= q < HALF && |sx| <= |x|
      modifies this`x
      ensures |x| == |old(x)| && x[|sx|..] == old(x)[|sx|..]
      ensures Val(x[..|sx|]) + t * Weight(|sx|) == old(Val(x[..|sx|])) - q * Val(sx)
    {
      hide Val, Weight, Pow;
      ghost var x0 := x;
      var borrow, carry := 0, 0;
      t := 0;
      NoDifference(x, sx, q);
      for i := 0 to |sx|
        invariant |x| == |x0| && -1 <= borrow <= 0 && 0 <= carry < HALF && t == borrow - carry && x[i..] == x0[i..]
        invariant Val(x[..i]) + t * Weight(i) == Val(x0[..i]) - q * Val(sx[..i])
      {
        ghost var x1, t1 := x, t;
        assert x[i] == x[i..][0] == x0[i];
        var p, w;
        p, carry := MultiplyWord(sx[i], q, carry);
        w, borrow := SubtractWord(x[i], p, borrow);
        t := borrow - carry;
        x := x[i := w];
        assert x[..i] == x1[..i] && x[i + 1..] == x1[i..][1..];
        SubtractStep(x0, x, sx, i, q, t1, t, Val(x1[..i]));
      }
      assert sx[..|sx|] == sx;
    }

    /** Sets this number to the difference of `xa` and `xb`: the loops of `diff`. */
    method SetDifference(xa: seq<Word32>, xb: seq<Word32>) returns (ghost t: int)
      requires |xb| <= |xa| <= |x|
      modifies this`x
      ensures |x| == |old(x)| && Val(x[..|xa|]) + t * Weight(|xa|) == Val(xa) - Val(xb)
    {
      hide Val, Weight, Pow;
      var borrow := 0;
      NoDifference(x, xb, 1);
      assert x[..0] == xa[..0] == xb[..0] == [];
      NothingVal();
      for i := 0 to |xb|
        invariant |x| == |old(x)| && -1 <= borrow <= 0
        invariant Val(x[..i]) + borrow * Weight(i) == Val(xa[..i]) - Val(xb[..i])
      {
        ghost var x1, b1 := x, borrow;
        var w;
        w, borrow := SubtractWord(xa[i], xb[i], borrow);
        x := x[i := w];
        assert x[..i] == x1[..i];
        DifferenceStep(x, xa, i, xb[i], b1, borrow, Val(x1[..i]), Val(xb[..i]));
        ValNext(xb, i);
      }
      assert xb[..|xb|] == xb;
      for i := |xb| to |xa|
        invariant |x| == |old(x)| && -1 <= borrow <= 0 && Val(x[..i]) + borrow * Weight(i) == Val(xa[..i]) - Val(xb)
      {
        ghost var x1, b1 := x, borrow;
        var w;
        w, borrow := SubtractWord(xa[i], 0, borrow);
        x := x[i := w];
        assert x[..i] == x1[..i];
        DifferenceStep(x, xa, i, 0, b1, borrow, Val(x1[..i]), Val(xb));
      }
      assert xa[..|xa|] == xa;
      t := borrow;
    }

    method ZeroWords(n: nat)
      requires n <= |x|
      modifies this`x
      ensures |x| == |old(x)| && Val(x[..n]) == 0 && forall i :: 0 <= i < n ==> x[i] == 0
    {
      for i := 0 to n
        invariant |x| == |old(x)| && forall j :: 0 <= j < i ==> x[j] == 0
      {
        x := x[i := 0];
      }
      ZeroWordsVal(x[..n]);
    }

    /** Sets this number to `bx` shifted left by `n` words and `s` bits: the loops of `lshift`. */
    method SetShifted(bx: seq<Word32>, n: nat, s: nat) returns (z: int)
      requires s < 32 && n + |bx| < |x| && bx != []
      modifies this`x
      ensures |x| == |old(x)| && 0 <= z < Pow(2, s) && (s > 0 ==> x[n + |bx|] == z)
      ensures Val(x[..n + |bx|]) + z * Weight(n + |bx|) == Val(bx) * Pow(2, s) * Weight(n)
      ensures bx[|bx| - 1] != 0 && z == 0 ==> x[n + |bx| - 1] != 0
    {
      hide Val, Weight, Pow;
      ZeroWords(n);
      z := 0;
      NoShift(x, bx, n, s);
      for i := 0 to |bx|
        invariant |x| == |old(x)| && 0 <= z < Pow(2, s)
        invariant Val(x[..n + i]) + z * Weight(n + i) == Val(bx[..i]) * Pow(2, s) * Weight(n)
        invariant i > 0 && bx[i - 1] != 0 && z == 0 ==> x[n + i - 1] != 0
      {
        ghost var x1, z1 := x, z;
        var w;
        w, z := ShiftedWord(bx[i], s, z);
        x := x[n + i := w];
        assert x[..n + i] == x1[..n + i];
        ShiftStep(x, bx, n, i, s, z1, z, Val(x1[..n + i]));
      }
      assert bx[..|bx|] == bx;
      PowWord(s);
      if s > 0 {
        ghost var x1 := x;
        x := x[n + |bx| := z];
        assert x[..n + |bx|] == x1[..n + |bx|];
      }
    }

    /** Becomes `b` times 2 to the power `k`. */
    method BecomeShifted(b: Bigint, k: nat)
      requires this != b && Shaped() && b.Normal() && k / 32 + b.wds + 1 <= |x| && (0 < b.Value() || k < 32)
      requires b.wds == 0 ==> 2 <= |x|
      modifies this`x, this`wds
      ensures Normal() && Value() == b.Value() * Pow(2, k)
    {
      hide Val, Weight, Pow;
      var n, s := k / 32, k % 32;
      b.UsedValue();
      b.ZeroIfEmpty();
      ShiftSplit(b.Value(), k);
      ShiftedTop(b, k);
      ZerothPower(2);
      var z := SetShifted(b.x[..b.Used()], n, s);
      ShiftedWords(x, n, b.wds, s, z, b.Value() * Pow(2, k));
      wds := n + b.wds;
      if s != 0 && z != 0 {
        wds := wds + 1;
      }
    }

    /** Becomes the difference of `a` and the smaller number `b`. */
    method BecomeDifference(a: Bigint, b: Bigint)
      requires this != a && this != b && Shaped() && a.Normal() && b.Normal() && b.wds <= a.wds <= |x|
      requires b.Value() < a.Value()
      modifies this`x, this`wds
      ensures Normal() && 1 <= wds && Value() == a.Value() - b.Value()
    {
      hide Val, Weight, Pow;
      var wa := a.wds;
      ghost var t := SetDifference(a.x[..wa], b.x[..b.wds]);
      ValBound(x[..wa]);
      ValBound(a.x[..wa]);
      NothingLeft(Val(x[..wa]), t, Weight(wa), a.Value() - b.Value());
      assert t * Weight(wa) == 0;
      wa := LeadingZeros(x, wa);
      wds := wa;
      ZeroIfEmpty();
    }

    /** Drops leading zeros, as `quorem` does. */
    method Trim(n: nat)
      requires 1 <= n == wds <= |x|
      modifies this`wds
      ensures wds <= n && Val(x[..wds]) == Val(x[..n])
      ensures (1 < n ==> 0 < wds) && (n == 1 && x[0] == 0 ==> wds == 0)
      ensures wds > 1 ==> x[wds - 1] != 0
      ensures wds == 0 ==> x[0] == 0
    {
      if x[n - 1] == 0 {
        var m := n - 1;
        while m > 1 && x[m - 1] == 0
          invariant m < n && (1 < n ==> 0 < m) && forall i :: m <= i < n ==> x[i] == 0
        {
          m := m - 1;
        }
        ValZeros(x[..n], m);
        assert x[..n][..m] == x[..m];
        wds := m;
      }
    }
  }

  lemma NoWords(s: seq<Word32>, m: int, a: int)
    ensures Val(s[..0]) + a * Weight(0) == Val(s[..0]) * m + a
  {
    assert s[..0] == [] && Weight(0) == 1;
  }

  /** Multiplies one word, half by half. */
  method MultiplyWord(xi: Word32, m: int, a: int) returns (w: Word32, carry: int)
    requires 0 <= m < HALF && 0 <= a < HALF
    ensures xi * m + a == w + WORD * carry && 0 <= carry < HALF
  {
    hide Wrap, Lo, Hi;
    MulAddWord(xi, m, a);
    WrapSmall(Lo(xi) * m + a);
    var y := Wrap(Lo(xi) * m + a);
    WrapSmall(Hi(xi) * m + Hi(y));
    var z := Wrap(Hi(xi) * m + Hi(y));
    carry := Hi(z);
    w := Lo(z) * HALF + Lo(y);
  }

  /** Adds a word times `y` and a carry to the word `c`. */
  method AddWord(xi: Word32, y: int, c: Word32, a: int) returns (w: Word32, carry: int)
    requires 0 <= y < HALF && 0 <= a < HALF
    ensures xi * y + c + a == w + WORD * carry && 0 <= carry < HALF
  {
    hide Wrap, Lo, Hi;
    AddWordHalves(xi, y, c, a);
    WrapSmall(Lo(xi) * y + Lo(c) + a);
    var z := Wrap(Lo(xi) * y + Lo(c) + a);
    WrapSmall(Hi(xi) * y + Hi(c) + Hi(z));
    var z2 := Wrap(Hi(xi) * y + Hi(c) + Hi(z));
    carry := Hi(z2);
    w := Lo(z2) * HALF + Lo(z);
  }

  lemma AddWordHalves(xi: Word32, y: int, c: Word32, a: int)
    requires 0 <= y < HALF && 0 <= a < HALF
    ensures var z := Lo(xi) * y + Lo(c) + a; var z2 := Hi(xi) * y + Hi(c) + Hi(z);
            0 <= z < WORD && 0 <= z2 < WORD && 0 <= Hi(z2) < HALF && 0 <= Lo(z2) * HALF + Lo(z) < WORD &&
            xi * y + c + a == (Lo(z2) * HALF + Lo(z)) + WORD * Hi(z2)
  {
    HalfProduct(Lo(xi), y);
    HalfProduct(Hi(xi), y);
    Distribute(Hi(xi) * HALF, Lo(xi), y);
    Assoc(HALF, Hi(xi), y);
    assert xi == Hi(xi) * HALF + Lo(xi);
  }

  /** What is still to be added at the word that the second inner loop of `mult` has come to. */
  ghost function Pending(z2: int, carry: int, c: int): int {
    Lo(z2) + HALF * (carry + Hi(c))
  }

  lemma LastPending(z2: int, carry: int, c: int)
    requires 0 <= c < HALF && carry == Hi(z2)
    ensures Pending(z2, carry, c) == z2
  {
  }

  method AddHighWord(xi: Word32, y: int, c: Word32, next: Word32, z0: int, a: int)
    returns (w: Word32, z2: int, carry: int)
    requires 0 <= y < HALF && 0 <= a < HALF && 0 <= z0 < WORD
    ensures 0 <= carry < HALF && 0 <= z2 < WORD && carry == Hi(z2)
    ensures Pending(z0, a, c) + (HALF * y * xi + WORD * next) == w + WORD * Pending(z2, carry, next)
  {
    hide Wrap, Lo, Hi, Pending;
    HighHalves(xi, y, c, next, z0, a);
    WrapSmall(Lo(xi) * y + Hi(c) + a);
    var z := Wrap(Lo(xi) * y + Hi(c) + a);
    w := Lo(z) * HALF + Lo(z0);
    WrapSmall(Hi(xi) * y + Lo(next) + Hi(z));
    z2 := Wrap(Hi(xi) * y + Lo(next) + Hi(z));
    carry := Hi(z2);
  }

  lemma HighHalves(xi: Word32, y: int, c: Word32, next: Word32, z0: int, a: int)
    requires 0 <= y < HALF && 0 <= a < HALF && 0 <= z0 < WORD
    ensures var z := Lo(xi) * y + Hi(c) + a; var z2 := Hi(xi) * y + Lo(next) + Hi(z);
            0 <= z < WORD && 0 <= z2 < WORD && 0 <= Hi(z2) < HALF && 0 <= Lo(z) * HALF + Lo(z0) < WORD &&
            Pending(z0, a, c) + (HALF * y * xi + WORD * next) == (Lo(z) * HALF + Lo(z0)) + WORD * Pending(z2, Hi(z2),
              next)
  {
    HalfProduct(Lo(xi), y);
    HalfProduct(Hi(xi), y);
    Distribute(Hi(xi) * HALF, Lo(xi), y);
    Assoc(HALF, Hi(xi), y);
    assert xi == Hi(xi) * HALF + Lo(xi);
    assert HALF * y * xi == HALF * (xi * y);
  }

  /** One step of adding words with weights: `t` is carried into word `n`, `t1` out of it. */
  lemma SumStep(a: int, t: int, p: int, b: int, d: int, w: int, t1: int)
    requires a + t * p == b && t + d == w + WORD * t1
    ensures a + w * p + t1 * (WORD * p) == b + d * p
  {
    Distribute(w, WORD * t1, p);
    Distribute(t, d, p);
    Assoc(WORD, t1, p);
  }

  lemma AddStep(x0: seq<Word32>, x: seq<Word32>, xa: seq<Word32>, i: nat, j: nat, y: int, t: int, t1: int, v: int)
    requires i < |xa| && j + i < |x0| && j + i < |x| && v == Val(x[..j + i])
    requires v + t * Weight(j + i) == Val(x0[..j + i]) + y * Val(xa[..i]) * Weight(j)
    requires xa[i] * y + x0[j + i] + t == x[j + i] + WORD * t1
    ensures Val(x[..j + (i + 1)]) + t1 * Weight(j + (i + 1)) ==
            Val(x0[..j + (i + 1)]) + y * Val(xa[..i + 1]) * Weight(j)
  {
    hide Val, Weight;
    var p, d := Weight(j + i), xa[i] * y + x0[j + i];
    ValNext(x0, j + i);
    ValNext(x, j + i);
    ValNext(xa, i);
    WeightNext(j + i);
    WeightAdd(j, i);
    SumStep(v, t, p, Val(x0[..j + i]) + y * Val(xa[..i]) * Weight(j), d, x[j + i], t1);
    Distribute(xa[i] * y, x0[j + i], p);
    ShiftedProduct(y, Val(xa[..i]), xa[i], Weight(i), Weight(j));
  }

  lemma ShiftedProduct(y: int, v: int, d: int, wi: int, wj: int)
    ensures y * (v + d * wi) * wj == y * v * wj + (d * y) * (wj * wi)
  {
    calc {
      y * (v + d * wi) * wj;
      { Distribute(v, d * wi, y); }
      (y * v + y * (d * wi)) * wj;
      { Distribute(y * v, y * (d * wi), wj); Assoc(y, d, wi); }
      y * v * wj + ((d * y) * wi) * wj;
      { Assoc(d * y, wi, wj); }
      y * v * wj + (d * y) * (wj * wi);
    }
  }

  lemma AddHighStep(x0: seq<Word32>, x: seq<Word32>, xa: seq<Word32>, i: nat, j: nat, y: int, t: int, t1: int, v: int)
    requires i < |xa| && j + i + 1 < |x0| && j + i < |x| && v == Val(x[..j + i])
    requires v + t * Weight(j + i) == Val(x0[..j + i + 1]) + HALF * y * Val(xa[..i]) * Weight(j)
    requires t + (HALF * y * xa[i] + WORD * x0[j + i + 1]) == x[j + i] + WORD * t1
    ensures Val(x[..j + (i + 1)]) + t1 * Weight(j + (i + 1)) ==
            Val(x0[..j + (i + 1) + 1]) + HALF * y * Val(xa[..i + 1]) * Weight(j)
  {
    hide Val, Weight;
    var p, c := Weight(j + i), x0[j + i + 1];
    var d := HALF * y * xa[i] + WORD * c;
    ValNext(x0, j + i + 1);
    ValNext(x, j + i);
    ValNext(xa, i);
    WeightNext(j + i);
    WeightAdd(j, i);
    SumStep(v, t, p, Val(x0[..j + i + 1]) + HALF * y * Val(xa[..i]) * Weight(j), d, x[j + i], t1);
    Distribute(HALF * y * xa[i], WORD * c, p);
    Assoc(WORD, c, p);
    ShiftedProduct(HALF * y, Val(xa[..i]), xa[i], Weight(i), Weight(j));
  }

  lemma NoProduct(s: seq<Word32>, xa: seq<Word32>, j: nat, y: int)
    requires j < |s|
    ensures Val(s[..j + 0]) + 0 * Weight(j + 0) == Val(s[..j + 0]) + y * Val(xa[..0]) * Weight(j)
  {
    assert xa[..0] == [];
  }

  lemma NoHighProduct(s: seq<Word32>, xa: seq<Word32>, j: nat, y: int)
    requires j < |s|
    ensures Val(s[..j + 0]) + Pending(s[j], 0,
            s[j + 0]) * Weight(j + 0) == Val(s[..j + 0 + 1]) + HALF * y * Val(xa[..0]) * Weight(j)
  {
    assert xa[..0] == [];
    ValNext(s, j);
    assert Pending(s[j], 0, s[j]) == s[j];
  }

  /** Subtracts a word and a borrow, half by half; the shifts of negative numbers keep the sign. */
  method SubtractWord(xi: Word32, si: Word32, b: int) returns (w: Word32, borrow: int)
    requires -1 <= b <= 0
    ensures xi - si + b == w + WORD * borrow && -1 <= borrow <= 0
  {
    var y := Lo(xi) - Lo(si) + b;
    var z := Hi(xi) - Hi(si) + y / HALF;
    borrow := z / HALF;
    w := z % HALF * HALF + y % HALF;
  }

  lemma SubtractStep(x0: seq<Word32>, x: seq<Word32>, sx: seq<Word32>, i: nat, q: int, t: int, t1: int, v: int)
    requires i < |sx| && i < |x0| && i < |x| && v == Val(x[..i])
    requires v + t * Weight(i) == Val(x0[..i]) - q * Val(sx[..i])
    requires x0[i] - sx[i] * q + t == x[i] + WORD * t1
    ensures Val(x[..i + 1]) + t1 * Weight(i + 1) == Val(x0[..i + 1]) - q * Val(sx[..i + 1])
  {
    hide Val, Weight;
    var p := Weight(i);
    ValNext(x0, i);
    ValNext(x, i);
    ValNext(sx, i);
    WeightNext(i);
    SumStep(v, t, p, Val(x0[..i]) - q * Val(sx[..i]), x0[i] - sx[i] * q, x[i], t1);
    Distribute(x0[i], sx[i] * q, p);
    Distribute(Val(sx[..i]), sx[i] * p, q);
    Assoc(q, sx[i], p);
    Assoc(sx[i], q, p);
  }

  lemma DifferenceStep(x: seq<Word32>, xa: seq<Word32>, i: nat, d: Word32, t: int, t1: int, v: int, vb: int)
    requires i < |xa| && i < |x| && v == Val(x[..i])
    requires v + t * Weight(i) == Val(xa[..i]) - vb
    requires xa[i] - d + t == x[i] + WORD * t1
    ensures Val(x[..i + 1]) + t1 * Weight(i + 1) == Val(xa[..i + 1]) - (vb + d * Weight(i))
  {
    hide Val, Weight;
    var p := Weight(i);
    ValNext(xa, i);
    ValNext(x, i);
    WeightNext(i);
    SumStep(v, t, p, Val(xa[..i]) - vb, xa[i] - d, x[i], t1);
    Distribute(xa[i], d, p);
  }

  method ShiftedWord(w: Word32, s: nat, z: int) returns (r: Word32, out: int)
    requires s < 32 && 0 <= z < Pow(2, s)
    ensures w * Pow(2, s) + z == r + WORD * out && 0 <= out < Pow(2, s)
    ensures w != 0 && out == 0 ==> r != 0
    ensures s == 0 ==> r == w && out == 0
  {
    if s == 0 {
      return w, 0;
    }
    ShiftWord(w, s, z);
    r := Wrap(w * Pow(2, s)) + z;
    out := w / Pow(2, 32 - s);
    if w != 0 && out == 0 {
      ProductPositive(w, Pow(2, s));
    }
  }

  lemma ProductPositive(a: int, b: int)
    requires 1 <= a && 1 <= b
    ensures 1 <= a * b
  {
  }

  lemma ShiftStep(x: seq<Word32>, bx: seq<Word32>, n: nat, i: nat, s: nat, t: int, t1: int, v: int)
    requires i < |bx| && n + i < |x| && v == Val(x[..n + i])
    requires v + t * Weight(n + i) == Val(bx[..i]) * Pow(2, s) * Weight(n)
    requires bx[i] * Pow(2, s) + t == x[n + i] + WORD * t1
    ensures Val(x[..n + (i + 1)]) + t1 * Weight(n + (i + 1)) == Val(bx[..i + 1]) * Pow(2, s) * Weight(n)
  {
    hide Val, Weight, Pow;
    var p, k := Weight(n + i), Pow(2, s);
    ValNext(bx, i);
    ValNext(x, n + i);
    WeightNext(n + i);
    WeightAdd(n, i);
    SumStep(v, t, p, Val(bx[..i]) * k * Weight(n), bx[i] * k, x[n + i], t1);
    ShiftedProduct(k, Val(bx[..i]), bx[i], Weight(i), Weight(n));
  }

  lemma NoDifference(s: seq<Word32>, sx: seq<Word32>, q: int)
    ensures Val(s[..0]) + 0 * Weight(0) == Val(s[..0]) - q * Val(sx[..0])
  {
    assert sx[..0] == [];
  }

  lemma PowWord(s: nat)
    requires s < 32
    ensures Pow(2, s) <= WORD
  {
    Pow2Mono(s, 32);
    Pow2Word();
  }

  lemma ZeroPrefix(s: seq<Word32>, n: nat)
    requires n <= |s| && forall i :: 0 <= i < n ==> s[i] == 0
    ensures Val(s[..n + 0]) == 0 && Val([]) == 0
  {
    ZeroWordsVal(s[..n]);
  }

  lemma HalvesOf(w: Word32)
    ensures 0 <= Lo(w) < HALF && 0 <= Hi(w) < HALF && w == HALF * Hi(w) + Lo(w)
  {
  }

  lemma MultiplyStep(xb: seq<Word32>, j: nat, y: int, z: int, v: int)
    requires j < |xb| && xb[j] == HALF * z + y
    ensures v * Val(xb[..j]) + y * v * Weight(j) + HALF * z * v * Weight(j) == v * Val(xb[..j + 1])
  {
    hide Val, Weight;
    ValNext(xb, j);
    var w := Weight(j);
    Distribute(Val(xb[..j]), xb[j] * w, v);
    Distribute(y, HALF * z, v);
    Distribute(y * v, HALF * z * v, w);
    Assoc(v, xb[j], w);
    assert xb[j] * v == y * v + HALF * z * v;
  }

  lemma NothingVal()
    ensures Val([]) == 0
  {
  }

  lemma ZeroWordsVal(s: seq<Word32>)
    requires forall i :: 0 <= i < |s| ==> s[i] == 0
    ensures Val(s) == 0
  {
    ValZeros(s, 0);
  }

  lemma NoShift(x: seq<Word32>, bx: seq<Word32>, n: nat, s: nat)
    requires n <= |x| && Val(x[..n]) == 0
    ensures Val(x[..n + 0]) + 0 * Weight(n + 0) == Val(bx[..0]) * Pow(2, s) * Weight(n)
    ensures 0 < Pow(2, s)
  {
    assert bx[..0] == [];
  }

  /** One step of a multiplication by `m` with carry. */
  lemma ProductStep(x0: seq<Word32>, x: seq<Word32>, i: nat, v: int, m: int, a: int, a0: int, a1: int)
    requires i < |x0| && i < |x| && v == Val(x[..i])
    requires v + a0 * Weight(i) == Val(x0[..i]) * m + a
    requires x0[i] * m + a0 == x[i] + WORD * a1
    ensures Val(x[..i + 1]) + a1 * Weight(i + 1) == Val(x0[..i + 1]) * m + a
  {
    var p := Weight(i);
    ValNext(x0, i);
    ValNext(x, i);
    WeightNext(i);
    calc {
      Val(x0[..i + 1]) * m + a;
      (Val(x0[..i]) + x0[i] * p) * m + a;
      { Distribute(Val(x0[..i]), x0[i] * p, m); Assoc(x0[i], p, m); }
      v + a0 * p + (x0[i] * m) * p;
      { Distribute(a0, x0[i] * m, p); }
      v + (x0[i] * m + a0) * p;
      { Distribute(x[i], WORD * a1, p); Assoc(WORD, a1, p); }
      v + x[i] * p + a1 * (WORD * p);
    }
  }

  /** The number of words of a normal number is determined by its value, but for zero. */
  lemma WordsOf(a: Bigint, n: nat)
    requires a.Normal()
    ensures a.Value() < Weight(a.wds)
    ensures a.wds > 1 ==> Weight(a.wds - 1) <= a.Value()
    ensures a.Value() < Weight(n) && n >= 1 ==> a.wds <= n
  {
    var s := a.x[..a.wds];
    ValBound(s);
    if a.wds > 1 {
      ValLead(s);
      if n >= 1 && a.wds > n {
        WeightMono(n, a.wds - 1);
      }
    }
  }

  lemma {:induction false} WeightMono(i: nat, j: nat)
    requires i <= j
    ensures Weight(i) <= Weight(j)
    decreases j
  {
    if i < j {
      WeightMono(i, j - 1);
      WeightNext(j - 1);
    }
  }

  lemma ZeroWords(a: Bigint)
    requires a.Valid()
    ensures a.wds == 0 ==> a.Value() == 0
    ensures a.wds == 1 ==> a.Value() == a.x[0]
  {
    if a.wds == 1 {
      ValNext(a.x, 0);
      assert a.x[..0] == [] && Weight(0) == 1;
    }
  }

  /** Compares two numbers whose highest differing word is `i`. */
  lemma TopDiffers(s: seq<Word32>, t: seq<Word32>, n: nat, i: nat)
    requires i < n <= |s| && n <= |t| && s[i] < t[i] && forall j :: i < j < n ==> s[j] == t[j]
    ensures Val(s[..n]) < Val(t[..n])
    decreases n
  {
    ValNext(s, n - 1);
    ValNext(t, n - 1);
    if i == n - 1 {
      ValBound(s[..i]);
      assert s[i] * Weight(i) + Weight(i) <= t[i] * Weight(i) by {
        Distribute(s[i], 1, Weight(i));
        Monotone(s[i] + 1, t[i], Weight(i));
      }
    } else {
      TopDiffers(s, t, n - 1, i);
    }
  }

  /** `cmp`: compares the numbers of words first, then the words from the top. */
  method Cmp(a: Bigint, b: Bigint) returns (r: int)
    requires a.Normal() && b.Normal() && 0 < a.wds + b.wds
    ensures r < 0 <==> a.Value() < b.Value() || (a.Value() == b.Value() && a.wds < b.wds)
    ensures r > 0 <==> a.Value() > b.Value() || (a.Value() == b.Value() && a.wds > b.wds)
    ensures r == 0 ==> a.wds == b.wds && a.x[..a.wds] == b.x[..b.wds]
  {
    r := a.wds - b.wds;
    if r != 0 {
      if r < 0 {
        LongerIsLarger(a, b);
      } else {
        LongerIsLarger(b, a);
      }
      return;
    }
    var j := a.wds;
    while j > 0
      invariant 0 <= j <= a.wds == b.wds
      invariant forall i :: j <= i < a.wds ==> a.x[i] == b.x[i]
    {
      j := j - 1;
      if a.x[j] != b.x[j] {
        if a.x[j] < b.x[j] {
          TopDiffers(a.x, b.x, a.wds, j);
          return -1;
        } else {
          TopDiffers(b.x, a.x, a.wds, j);
          return 1;
        }
      }
    }
    assert a.x[..a.wds] == b.x[..b.wds];
  }

  lemma LongerIsLarger(a: Bigint, b: Bigint)
    requires a.Normal() && b.Normal() && a.wds < b.wds
    ensures a.Value() < b.Value() || (a.Value() == b.Value() == 0)
  {
    WordsOf(a, 0);
    WordsOf(b, 0);
    if b.wds > 1 {
      WeightMono(a.wds, b.wds - 1);
    } else {
      ZeroWords(a);
    }
  }

  // ---- The functions of dtoa.c ----

  /** The power of five in node `j` of the cache. */
  ghost function CachedPower(j: nat): nat {
    Pow(5, 4 * Pow(2, j))
  }

  lemma OldTop(b: Bigint, m: int, a: int)
    requires b.Valid()
    ensures b.Normal() && b.wds > 1 ==> b.Value() >= Weight(b.wds - 1)
    ensures b.wds == 0 ==> b.Value() == 0
  {
    if b.Normal() {
      WordsOf(b, 0);
    }
  }

  lemma ValAppend(s: seq<Word32>, w: Word32)
    ensures Val(s + [w]) == Val(s) + w * Weight(|s|)
  {
    assert (s + [w])[..|s|] == s;
  }

  lemma TopNonZero(s: seq<Word32>, n: nat)
    requires 1 <= n <= |s| && Weight(n - 1) <= Val(s[..n])
    ensures s[n - 1] != 0
  {
    if s[n - 1] == 0 {
      ValNext(s, n - 1);
      ValBound(s[..n - 1]);
    }
  }

  lemma ProductTop(s: seq<Word32>, n: nat, v: nat, m: int, a: nat)
    requires 1 <= n <= |s| && Weight(n - 1) <= v && 1 <= m && Val(s[..n]) == v * m + a
    ensures s[n - 1] != 0
  {
    hide Val, Weight;
    Monotone(1, m, v);
    TopNonZero(s, n);
  }

  /** A carry out of `n` words means that the number is large. */
  lemma CarryOut(s: seq<Word32>, n: nat, carry: int, v: int)
    requires n <= |s| && 1 <= carry && Val(s[..n]) + carry * Weight(n) == v && v < Weight(0x8000)
    ensures Weight(n) <= v && n < 0x8000
  {
    hide Val, Weight;
    Monotone(1, carry, Weight(n));
    WeightFrom(0x8000, n);
  }

  lemma WeightFrom(i: nat, j: nat)
    ensures i <= j ==> Weight(i) <= Weight(j)
  {
    if i <= j {
      WeightMono(i, j);
    }
  }

  lemma SizeBelow(wds: nat, k: nat)
    requires wds < 0x8000 && Pow(2, k) <= wds
    ensures k < KMAX
  {
    hide Pow;
    Pow2Word();
    Pow2From(KMAX, k);
  }

  lemma Pow2From(i: nat, j: nat)
    ensures i <= j ==> Pow(2, i) <= Pow(2, j)
  {
    if i <= j {
      Pow2Mono(i, j);
    }
  }

  lemma DoubleSize(k: nat)
    ensures Pow(2, k + 1) == 2 * Pow(2, k)
  {
  }

  lemma ZeroWord(s: seq<Word32>)
    requires 1 <= |s| && Val(s[..1]) == 0
    ensures s[0] == 0 && Val(s[..0]) == 0
  {
    ValNext(s, 0);
    assert s[..0] == [];
  }

  lemma SmallPower(i: nat)
    requires 1 <= i <= 3
    ensures Pow(5, i) == [5, 25, 125][i - 1]
  {
  }

  lemma ZerothPower(b: nat)
    ensures Pow(b, 0) == 1
  {
  }

  /** The exponent of five that is left when bit `j` is the next to be looked at and `k` the rest. */
  ghost function Left(j: nat, k: nat): nat {
    Product(4 * Pow(2, j), k);
    4 * Pow(2, j) * k
  }

  lemma LeftSteps(j: nat, k: nat)
    ensures Left(j, 0) == 0 && Left(0, k) == 4 * k
    ensures Left(j, k) == (if k % 2 == 1 then 4 * Pow(2, j) else 0) + Left(j + 1, k / 2)
    ensures 1 <= k ==> Left(j, k) == 4 * Pow(2, j) + Left(j, k - 1)
  {
    hide Pow;
    DoubleSize(j);
    ZerothPower(2);
    HalveFactor(4 * Pow(2, j), k);
  }

  lemma HalveFactor(p: nat, k: nat)
    ensures p * 0 == 0
    ensures p * k == (if k % 2 == 1 then p else 0) + (2 * p) * (k / 2)
    ensures 1 <= k ==> p * k == p + p * (k - 1)
  {
    var h := k / 2;
    Assoc(2, p, h);
    if k % 2 == 1 {
      assert k == 2 * h + 1;
      Distribute(2 * h, 1, p);
    } else {
      assert k == 2 * h;
    }
    Distribute(k, 1, p);
  }

  /** The power of five is a small one times one with an exponent divisible by four. */
  lemma SplitPower(v: nat, k: nat)
    requires 1 <= v
    ensures v * Pow(5, k) == (v * Pow(5, k % 4)) * Pow(5, Left(0, k / 4))
    ensures 1 <= v * Pow(5, k % 4) <= v * Pow(5, k)
    ensures v * Pow(5, 0) == v
  {
    LeftSteps(0, k / 4);
    var e := Left(0, k / 4);
    PowAdd(5, k % 4, e);
    Assoc(v, Pow(5, k % 4), Pow(5, e));
    ProductPositive(v, Pow(5, k % 4));
    Monotone(1, Pow(5, e), v * Pow(5, k % 4));
  }

  /** One bit of the exponent. */
  lemma PowerStep(v: nat, j: nat, k: nat)
    requires 1 <= v && 1 <= k
    ensures v * Pow(5, Left(j, k)) == (if k % 2 == 1 then v * CachedPower(j) else v) * Pow(5, Left(j + 1, k / 2))
    ensures 1 <= v * CachedPower(j)
  {
    hide Left, Pow;
    LeftSteps(j, k);
    PositivePower(j);
    ProductPositive(v, CachedPower(j));
    if k % 2 == 1 {
      PowAdd(5, 4 * Pow(2, j), Left(j + 1, k / 2));
      Assoc(v, CachedPower(j), Pow(5, Left(j + 1, k / 2)));
    }
  }

  /** While a part of the power is left, neither factor exceeds the result. */
  lemma PowerBound(v: nat, j: nat, k: nat)
    requires 1 <= v && 1 <= k
    ensures v <= v * Pow(5, Left(j, k)) && CachedPower(j) <= v * Pow(5, Left(j, k))
  {
    hide Left, Pow;
    LeftSteps(j, k);
    PowAdd(5, 4 * Pow(2, j), Left(j, k - 1));
    var f, g := Pow(5, Left(j, k)), Pow(5, Left(j, k - 1));
    Monotone(1, g, CachedPower(j));
    Monotone(1, f, v);
    Monotone(1, v, f);
  }

  /** Shifting by `k` bits is shifting by a number of words and by fewer bits than a word has. */
  lemma ShiftSplit(v: nat, k: nat)
    ensures v * Pow(2, k % 32) * Weight(k / 32) == v * Pow(2, k)
  {
    WeightPow2(k / 32);
    PowAdd(2, k % 32, 32 * (k / 32));
    Assoc(v, Pow(2, k % 32), Weight(k / 32));
  }

  /** The number of words that the shifted number has. */
  lemma ShiftedWords(x: seq<Word32>, n: nat, wds: nat, s: nat, z: int, v: nat)
    requires var used := if wds == 0 then 1 else wds;
             n + used <= |x| && Val(x[..n + used]) + z * Weight(n + used) == v && 0 <= z && (s == 0 ==> z == 0) &&
             (s > 0 ==> n + used < |x| && x[n + used] == z)
    requires wds == 0 ==> n == 0 && v == 0
    ensures var m := n + wds + (if s != 0 && z != 0 then 1 else 0);
            m <= |x| && Val(x[..m]) == v && (m == 0 ==> x[0] == 0)
    ensures wds == 0 ==> z == 0
  {
    hide Weight;
    if wds == 0 {
      if z > 0 {
        Monotone(1, z, Weight(n + 1));
      }
      ZeroWord(x);
    } else if z != 0 {
      ValNext(x, n + wds);
    }
  }

  /** A number with just one word and value zero shifted by a number of words would have leading zeros. */
  lemma ShiftedTop(b: Bigint, k: nat)
    requires b.Normal()
    ensures b.wds >= 1 && (0 < b.Value() || k < 32) ==> b.x[b.wds - 1] != 0 || b.wds + k / 32 <= 1
  {
    if b.wds == 1 {
      ZeroWords(b);
    }
  }

  /** No carry or borrow is left over if the result fits. */
  lemma NothingLeft(v: int, t: int, w: int, r: int)
    requires v + t * w == r && 0 <= v < w && 0 <= r < w
    ensures t == 0
  {
    if t >= 1 {
      Monotone(1, t, w);
    } else if t <= -1 {
      Monotone(t, -1, w);
    }
  }

  /** The quotient estimated from the leading words is at most one too small. */
  lemma Estimate(vb: int, vs: int, bt: int, st: int, w: int)
    requires 1 <= w && 0 <= bt && 0x800_0000 <= st < 0x1000_0000
    requires bt * w <= vb < (bt + 1) * w && st * w <= vs < (st + 1) * w && vb < 10 * vs
    ensures var q := bt / (st + 1); 0 <= q <= 9 && 0 <= vb - q * vs < 2 * vs
  {
    var q, r := bt / (st + 1), bt % (st + 1);
    Quotient(bt, st + 1);
    EstimateDigit(vb, vs, bt, st, w, q, r);
    EstimateLow(vb, vs, bt, st, w, q, r);
    EstimateHigh(vb, vs, bt, st, w, q, r);
  }

  lemma EstimateDigit(vb: int, vs: int, bt: int, st: int, w: int, q: int, r: int)
    requires 1 <= w && 1 <= st && bt == (st + 1) * q + r && 0 <= r
    requires bt * w <= vb && vs < (st + 1) * w && vb < 10 * vs
    ensures q <= 9
  {
    if q >= 10 {
      Monotone(10, q, st + 1);
      Monotone(10 * (st + 1), bt, w);
      Assoc(10, st + 1, w);
    }
  }

  /** q * vs <= q * (st + 1) * w <= bt * w <= vb */
  lemma EstimateLow(vb: int, vs: int, bt: int, st: int, w: int, q: int, r: int)
    requires 1 <= w && 0 <= q && bt == (st + 1) * q + r && 0 <= r && bt * w <= vb && vs < (st + 1) * w
    ensures q * vs <= vb
  {
    Monotone(vs, (st + 1) * w, q);
    Assoc(q, st + 1, w);
    Monotone(q * (st + 1), bt, w);
  }

  /** vb - q * vs < (bt + 1 - q * st) * w <= 2 * st * w <= 2 * vs */
  lemma EstimateHigh(vb: int, vs: int, bt: int, st: int, w: int, q: int, r: int)
    requires 1 <= w && 0 <= q <= 9 && 10 <= st && bt == (st + 1) * q + r && r <= st
    requires vb < (bt + 1) * w && st * w <= vs
    ensures vb - q * vs < 2 * vs
  {
    Monotone(st * w, vs, q);
    Assoc(q, st, w);
    Distribute(bt + 1, q * st, w);
    Distribute(st, 1, q);
    assert bt + 1 - q * st <= 2 * st;
    Monotone(bt + 1 - q * st, 2 * st, w);
    Assoc(2, st, w);
  }

  /** A number less than ten times an aligned one has no more words. */
  lemma NoLonger(b: Bigint, S: Bigint)
    requires b.Normal() && S.Normal() && 1 <= S.wds && S.x[S.wds - 1] < 0x1000_0000 && b.Value() < 10 * S.Value()
    ensures b.wds <= S.wds
  {
    var n := S.wds;
    var s := S.x[..n];
    ValTop(s);
    var w := Weight(n - 1);
    Monotone(s[n - 1] + 1, 0x1000_0000, w);
    WeightNext(n - 1);
    WordsOf(b, n);
  }

  /** The divisor is aligned: its leading word has four leading zero bits, and no more. */
  ghost predicate Aligned(S: Bigint)
    reads S
  {
    S.Normal() && 1 <= S.wds && 0x800_0000 <= S.x[S.wds - 1] < 0x1000_0000
  }

  lemma AlignedPositive(S: Bigint)
    requires Aligned(S)
    ensures 1 <= S.Value()
  {
    ValLead(S.x[..S.wds]);
  }

  lemma TopWords(b: Bigint, S: Bigint)
    requires b.Valid() && S.Valid() && b.wds == S.wds >= 1
    ensures var n := S.wds; var w := Weight(n - 1);
            b.x[n - 1] * w <= b.Value() < (b.x[n - 1] + 1) * w && S.x[n - 1] * w <= S.Value() < (S.x[n - 1] + 1) * w
  {
    ValTop(b.x[..b.wds]);
    ValTop(S.x[..S.wds]);
  }

  /** If nothing is left in `b`, it has no words just if `S` has one. */
  ghost predicate WordsLeft(b: Bigint, S: Bigint)
    requires b.wds <= |b.x|
    reads b, S
  {
    b.Value() == 0 ==> (b.wds == 0 <==> S.wds == 1)
  }

  /** Subtracts `q` times `S` from `b`, which is not smaller and has as many words. */
  method Deduct(b: Bigint, S: Bigint, q: int)
    requires b != S && b.Normal() && S.Normal() && b.wds == S.wds >= 1 && 1 <= q < HALF && q * S.Value() <= b.Value()
    modifies b`x, b`wds
    ensures b.Normal() && b.Value() == old(b.Value()) - q * S.Value() && |b.x| == |old(b.x)| && b.wds <= old(b.wds)
    ensures WordsLeft(b, S)
  {
    hide Val, Weight, Pow;
    var n := S.wds;
    ghost var v := b.Value();
    ValBound(b.x[..n]);
    Product(q, S.Value());
    ghost var t := b.SubtractProduct(S.x[..n], q);
    ValBound(b.x[..n]);
    NothingLeft(Val(b.x[..n]), t, Weight(n), v - q * S.Value());
    assert t * Weight(n) == 0;
    b.Trim(n);
    if n == 1 && b.Value() == 0 {
      ZeroWord(b.x);
    }
  }

  /** The first estimate of the quotient, and what is left when it is used. */
  method FirstQuotient(b: Bigint, S: Bigint) returns (q: int)
    requires b != S && b.Normal() && Aligned(S) && b.Value() < 10 * S.Value() && b.wds == S.wds
    modifies b`x, b`wds
    ensures b.Normal() && |b.x| == |old(b.x)| && b.wds <= S.wds && (q != 0 ==> WordsLeft(b, S))
    ensures 0 <= q <= 9 && b.Value() == old(b.Value()) - q * S.Value() && b.Value() < 2 * S.Value()
  {
    hide Val, Weight, Pow;
    var n := S.wds - 1;
    TopWords(b, S);
    Estimate(b.Value(), S.Value(), b.x[n], S.x[n], Weight(n));
    q := b.x[n] / (S.x[n] + 1);
    if q != 0 {
      Deduct(b, S, q);
    }
  }

  /** `quorem`: returns the quotient, a digit, and leaves the remainder in `b`. */
  method QuoRem(b: Bigint, S: Bigint) returns (q: int)
    requires b != S && b.Normal() && Aligned(S) && b.Value() < 10 * S.Value()
    modifies b`x, b`wds
    ensures b.Normal() && |b.x| == |old(b.x)| && (q != 0 ==> WordsLeft(b, S))
    ensures 1 <= S.Value() && q == old(b.Value()) / S.Value() && b.Value() == old(b.Value()) % S.Value() && 0 <= q <= 9
  {
    hide Val, Weight, Pow;
    ghost var v := b.Value();
    NoLonger(b, S);
    AlignedPositive(S);
    if b.wds < S.wds {
      LongerIsLarger(b, S);
      DivMod(v, S.Value(), 0, v);
      return 0;
    }
    q := FirstQuotient(b, S);
    q := CorrectQuotient(b, S, q, v);
    DivMod(v, S.Value(), q, b.Value());
    DigitBound(v, S.Value(), q);
  }

  /** Corrects the quotient once if the remainder is too large. */
  method CorrectQuotient(b: Bigint, S: Bigint, q0: int, ghost v: int) returns (q: int)
    requires b != S && b.Normal() && S.Normal() && b.wds <= S.wds && 1 <= S.wds && 1 <= S.Value()
    requires b.Value() == v - q0 * S.Value() && b.Value() < 2 * S.Value() && (q0 != 0 ==> WordsLeft(b, S))
    modifies b`x, b`wds
    ensures b.Normal() && (q != 0 ==> WordsLeft(b, S))
    ensures |b.x| == |old(b.x)| && b.Value() == v - q * S.Value() && 0 <= b.Value() < S.Value()
  {
    hide Val, Weight, Pow;
    q := q0;
    var c := Cmp(b, S);
    EqualLengths(b, S);
    if c >= 0 {
      q := q + 1;
      Deduct(b, S, 1);
      Distribute(q0, 1, S.Value());
    }
  }

  lemma EqualLengths(b: Bigint, S: Bigint)
    requires b.Normal() && S.Normal() && 1 <= S.wds && b.wds <= S.wds && 1 <= S.Value()
    ensures S.Value() <= b.Value() ==> b.wds == S.wds
  {
    if S.Value() <= b.Value() {
      SameLength(b, S);
    }
  }

  lemma LargerIsLonger(a: Bigint, b: Bigint)
    requires a.Normal() && b.Normal() && 1 <= a.wds && 1 <= b.wds
    ensures a.Value() < b.Value() ==> a.wds <= b.wds
    ensures a.Value() == b.Value() ==> a.wds == b.wds
  {
    if a.wds > b.wds {
      LongerIsLarger(b, a);
      ValueOfTwo(a);
    } else if a.wds < b.wds {
      LongerIsLarger(a, b);
      ValueOfTwo(b);
    }
  }

  lemma ValueOfTwo(a: Bigint)
    requires a.Normal() && a.wds > 1
    ensures 1 <= a.Value()
  {
    ValLead(a.x[..a.wds]);
  }

  lemma SameLength(b: Bigint, S: Bigint)
    requires b.Normal() && S.Normal() && S.Value() <= b.Value() && 1 <= S.Value() && b.wds <= S.wds
    ensures b.wds == S.wds
  {
    if b.wds < S.wds {
      LongerIsLarger(b, S);
    }
  }

  lemma DigitBound(v: int, d: int, q: int)
    requires 0 <= v < 10 * d && 1 <= d && q == v / d
    ensures 0 <= q <= 9
  {
  }

  lemma FirstPower()
    ensures CachedPower(0) == 625
  {
    assert Pow(2, 0) == 1 && Pow(5, 2) == 25;
    PowAdd(5, 2, 2);
  }

  lemma NextPower(j: nat)
    ensures CachedPower(j + 1) == CachedPower(j) * CachedPower(j)
  {
    assert Pow(2, j + 1) == 2 * Pow(2, j);
    PowAdd(5, 4 * Pow(2, j), 4 * Pow(2, j));
  }

  lemma PositivePower(j: nat)
    ensures 1 <= CachedPower(j)
  {
  }

  /** The size of a number with room for `wc` words, at most twice as many as `a` has. */
  method ProductSize(a: Bigint, wc: nat) returns (k: nat)
    requires a.Normal() && a.k <= KMAX && wc <= 2 * a.wds && wc <= 0x8000
    ensures k <= KMAX && wc <= Pow(2, k)
  {
    hide Val, Weight, Pow;
    k := a.k;
    DoubleSize(a.k);
    if wc > |a.x| {
      SizeBelow(|a.x|, k);
      k := k + 1;
    }
  }

  /** The size of a number with room for `n1` words, starting from the size of `b`. */
  method RoomFor(b: Bigint, n1: nat) returns (k1: nat)
    requires b.Valid() && b.k <= KMAX && n1 <= 0x8000
    ensures b.k <= k1 <= KMAX && n1 <= Pow(2, k1) && |b.x| <= Pow(2, k1)
  {
    k1 := b.k;
    var i := |b.x|;
    while n1 > i
      invariant b.k <= k1 <= KMAX && i == Pow(2, k1) && |b.x| <= i && 1 <= i
      decreases n1 - i
    {
      DoubleSize(k1);
      SizeBelow(i, k1);
      i := 2 * i;
      k1 := k1 + 1;
    }
  }

  /** The number of words without the leading zeros. */
  method LeadingZeros(x: seq<Word32>, n: nat) returns (wc: nat)
    requires n <= |x|
    ensures wc <= n && Val(x[..wc]) == Val(x[..n]) && (wc > 0 ==> x[wc - 1] != 0) && (wc == 0 < n ==> x[0] == 0)
  {
    wc := n;
    while wc > 0 && x[wc - 1] == 0
      invariant wc <= n && forall i :: wc <= i < n ==> x[i] == 0
    {
      wc := wc - 1;
    }
    ValZeros(x[..n], wc);
    assert x[..n][..wc] == x[..wc];
  }

  /** Just the numbers `free` are on the lists, each once, on the list for its size. */
  ghost predicate ListsOk(lists: seq<seq<Bigint>>, free: set<Bigint>) {
    && |lists| == KMAX + 1
    && (forall i, j :: 0 <= i < |lists| && 0 <= j < |lists[i]| ==> lists[i][j] in free && lists[i][j].k == i)
    && (forall i, j, l :: 0 <= i < |lists| && 0 <= j < l < |lists[i]| ==> lists[i][j] != lists[i][l])
    && (forall b :: b in free ==> b.k <= KMAX && b in lists[b.k])
  }

  lemma ListsPop(lists: seq<seq<Bigint>>, free: set<Bigint>, k: nat)
    requires ListsOk(lists, free) && k <= KMAX && lists[k] != []
    ensures lists[k][0] in free && lists[k][0].k == k && ListsOk(lists[k := lists[k][1..]], free - {lists[k][0]})
  {
    var rv, lists1 := lists[k][0], lists[k := lists[k][1..]];
    forall b | b in free - {rv} ensures b.k <= KMAX && b in lists1[b.k] {
      if b.k == k {
        var j :| 0 <= j < |lists[k]| && lists[k][j] == b;
        assert lists1[k][j - 1] == b;
      }
    }
  }

  lemma ListsPush(lists: seq<seq<Bigint>>, free: set<Bigint>, v: Bigint)
    requires ListsOk(lists, free) && v !in free && v.k <= KMAX
    ensures ListsOk(lists[v.k := [v] + lists[v.k]], free + {v})
  {
    var lists1 := lists[v.k := [v] + lists[v.k]];
    forall b | b in free + {v} ensures b.k <= KMAX && b in lists1[b.k] {
      if b == v {
        assert lists1[v.k][0] == v;
      } else if b.k == v.k {
        var j :| 0 <= j < |lists[v.k]| && lists[v.k][j] == b;
        assert lists1[v.k][j + 1] == b;
      }
    }
  }

  /** The free lists, one for each size, and the cache of powers of five. */
  class Pool {
    var freelist: seq<seq<Bigint>>
    var p5s: seq<Bigint>
    ghost var free: set<Bigint>    // everything on the free lists

    /** Node `j` of the cache always holds 5 to the power 4 * 2^j and is on no free list. */
    ghost predicate Valid()
      reads this, free, p5s
    {
      && ListsOk(freelist, free)
      && (forall b :: b in free ==> b.Shaped())
      && (forall j :: 0 <= j < |p5s| ==>
            p5s[j] !in free && p5s[j].Normal() && 1 <= p5s[j].wds && p5s[j].Value() == CachedPower(j) &&
              p5s[j].k <= KMAX)
    }

    /** The caller may change and give away `b`. */
    ghost predicate Owns(b: Bigint)
      reads this, b
    {
      b !in free && b !in p5s && b.k <= KMAX && b.Valid()
    }

    constructor ()
      ensures Valid() && free == {} && p5s == []
    {
      freelist := seq(KMAX + 1, _ => []);
      p5s := [];
      free := {};
    }

    /** `Balloc`: takes a number off the free list for its size, or makes a new one. */
    method Balloc(k: nat) returns (rv: Bigint)
      requires Valid() && k <= KMAX
      modifies this`freelist, this`free, free
      ensures Valid() && rv.k == k && rv.Shaped() && rv.wds == 0 && !rv.sign && rv !in p5s
      ensures (fresh(rv) || rv in old(free)) && free == old(free) - {rv}
    {
      if freelist[k] != [] {
        rv := freelist[k][0];
        ListsPop(freelist, free, k);
        freelist := freelist[k := freelist[k][1..]];
        free := free - {rv};
      } else {
        rv := new Bigint(k);
      }
      rv.sign := false;
      rv.wds := 0;
    }

    /** `Bfree`: puts a number on the free list for its size. */
    method Bfree(v: Bigint)
      requires Valid() && Owns(v)
      modifies this`freelist, this`free
      ensures Valid() && free == old(free) + {v}
    {
      ListsPush(freelist, free, v);
      freelist := freelist[v.k := [v] + freelist[v.k]];
      free := free + {v};
    }

    /** `i2b` */
    method FromWord(i: Word32) returns (b: Bigint)
      requires Valid()
      modifies this`freelist, this`free, free
      ensures Valid() && Owns(b) && b.Normal() && b.Value() == i && b.wds == 1 && b.k == 1
      ensures (fresh(b) || b in old(free)) && free == old(free) - {b}
    {
      b := Balloc(1);
      b.x := b.x[0 := i];
      b.wds := 1;
      ZeroWords(b);
    }

    /** `multadd`: multiplies by `m` and adds `a`. */
    method MultAdd(b: Bigint, m: int, a: int) returns (r: Bigint)
      requires Valid() && Owns(b) && 0 <= m < HALF && 0 <= a < HALF && (b.wds == 0 ==> a == 0)
      requires b.Value() * m + a < Weight(0x8000)
      modifies this`freelist, this`free, free, b
      ensures Valid() && Owns(r) && r.Value() == old(b.Value()) * m + a
      ensures (old(b.Normal()) && 1 <= m ==> r.Normal()) && b.k <= r.k
      ensures (r == b || fresh(r) || r in old(free)) && free <= old(free) + {b} - {r}
    {
      hide ListsOk, CachedPower, Val, Weight, Pow;
      b.UsedValue();
      ghost var v, x0, n := b.Value(), b.x, b.Used();
      OldTop(b, m, a);
      var carry := b.MultiplyWords(m, a);
      r := b;
      if carry != 0 {
        CarryOut(b.x, n, carry, v * m + a);
        ghost var s := b.x[..n];
        r := Append(b, carry);
        ValAppend(s, carry);
      } else if b.wds > 1 && v >= Weight(b.wds - 1) && 1 <= m {
        ProductTop(b.x, b.wds, v, m, a);
      } else if b.wds == 0 {
        ZeroWord(b.x);
      }
    }

    /** Writes one more word. */
    method Append(b: Bigint, w: Word32) returns (r: Bigint)
      requires Valid() && Owns(b) && 1 <= b.wds < 0x8000
      modifies this`freelist, this`free, free, b
      ensures Valid() && Owns(r) && r.wds == old(b.wds) + 1 && r.x[..r.wds] == old(b.x[..b.wds]) + [w] && b.k <= r.k
      ensures (r == b || fresh(r) || r in old(free)) && free <= old(free) + {b} - {r}
    {
      hide ListsOk, Pow, Val;
      r := b;
      if b.wds >= |b.x| {
        SizeBelow(b.wds, b.k);
        r := Grow(b);
      }
      r.x := r.x[r.wds := w];
      r.wds := r.wds + 1;
    }

    /** Copies a full number to one of the next larger size and frees the old one. */
    method Grow(b: Bigint) returns (b1: Bigint)
      requires Valid() && Owns(b) && b.k < KMAX && 1 <= b.wds == |b.x|
      modifies this`freelist, this`free, free
      ensures Valid() && Owns(b1) && b1.k == b.k + 1 && b1.wds == b.wds < |b1.x| && b1.x[..b.wds] == b.x[..b.wds]
      ensures b1.sign == b.sign
      ensures b1 != b && (fresh(b1) || b1 in old(free)) && free == old(free) - {b1} + {b}
    {
      b1 := Balloc(b.k + 1);
      assert Pow(2, b.k + 1) == 2 * Pow(2, b.k);
      b1.x := b.x[..b.wds] + b1.x[b.wds..];
      b1.sign := b.sign;
      b1.wds := b.wds;
      Bfree(b);
    }

    /** `mult`, after its arguments were put in order. */
    method MultOrdered(a: Bigint, b: Bigint) returns (c: Bigint)
      requires Valid() && a.Normal() && b.Normal() && a !in free && b !in free
      requires 1 <= b.wds <= a.wds && a.wds + b.wds <= 0x8000 && a.k <= KMAX
      modifies this`freelist, this`free, free
      ensures Valid() && Owns(c) && c.Normal() && c.Value() == a.Value() * b.Value()
      ensures c != a && c != b && (fresh(c) || c in old(free)) && free == old(free) - {c}
    {
      hide ListsOk, Val, Weight, Pow, CachedPower;
      var wc := a.wds + b.wds;
      var k := ProductSize(a, wc);
      c := Balloc(k);
      c.SetProduct(a.x[..a.wds], b.x[..b.wds]);
      wc := LeadingZeros(c.x, wc);
      c.wds := wc;
    }

    /** `mult` */
    method Mult(a: Bigint, b: Bigint) returns (c: Bigint)
      requires Valid() && a.Normal() && b.Normal() && a !in free && b !in free
      requires 1 <= a.wds && 1 <= b.wds && a.wds + b.wds <= 0x8000 && a.k <= KMAX && b.k <= KMAX
      modifies this`freelist, this`free, free
      ensures Valid() && Owns(c) && c.Normal() && c.Value() == a.Value() * b.Value()
      ensures c != a && c != b && (fresh(c) || c in old(free)) && free == old(free) - {c}
    {
      hide ListsOk, Val, Weight, Pow, CachedPower;
      if a.wds < b.wds {
        c := MultOrdered(b, a);
      } else {
        c := MultOrdered(a, b);
      }
    }

    /** Makes sure that node `j` of the cache is there. */
    method NeedNode(j: nat)
      requires Valid() && j <= |p5s| && (j > 0 ==> CachedPower(j - 1) < Weight(0x4000))
      modifies this`freelist, this`free, this`p5s, free
      ensures Valid() && j < |p5s| && old(p5s) <= p5s && free <= old(free)
      ensures forall n :: n in p5s ==> n in old(p5s) || fresh(n) || n in old(free)
    {
      hide ListsOk, Val, Weight, Pow, CachedPower;
      if j == |p5s| {
        var p;
        if j == 0 {
          p := FromWord(625);
          FirstPower();
        } else {
          WordsOf(p5s[j - 1], 0x4000);
          p := Mult(p5s[j - 1], p5s[j - 1]);
          NextPower(j - 1);
          PositivePower(j);
          p.ZeroIfEmpty();
        }
        p5s := p5s + [p];
      }
    }

    /** Multiplies by node `j` of the cache. */
    method MultNode(b: Bigint, j: nat) returns (r: Bigint)
      requires Valid() && Owns(b) && b.Normal() && 1 <= b.Value() < Weight(0x4000) && j < |p5s|
      requires CachedPower(j) < Weight(0x4000)
      modifies this`freelist, this`free, free
      ensures Valid() && Owns(r) && r.Normal() && r.Value() == b.Value() * CachedPower(j)
      ensures r != b && (fresh(r) || r in old(free)) && free == old(free) - {r} + {b}
    {
      hide ListsOk, Val, Weight, Pow, CachedPower;
      b.ZeroIfEmpty();
      WordsOf(b, 0x4000);
      WordsOf(p5s[j], 0x4000);
      r := Mult(b, p5s[j]);
      Bfree(b);
    }

    /** Multiplies by one of the small powers. */
    method MultSmall(b: Bigint, i: nat) returns (r: Bigint)
      requires Valid() && Owns(b) && b.Normal() && 1 <= i <= 3 && b.Value() * Pow(5, i) < Weight(0x4000)
      modifies this`freelist, this`free, free, b
      ensures Valid() && Owns(r) && r.Normal() && r.Value() == old(b.Value()) * Pow(5, i)
      ensures (r == b || fresh(r) || r in old(free)) && free <= old(free) + {b} - {r}
    {
      hide ListsOk, Val, Weight, Pow, CachedPower;
      SmallPower(i);
      WeightMono(0x4000, 0x8000);
      b.ZeroIfEmpty();
      r := MultAdd(b, [5, 25, 125][i - 1], 0);
    }

    /** One turn of the loop of `pow5mult`. */
    method Pow5Step(b: Bigint, j: nat, k: nat) returns (r: Bigint)
      requires Valid() && Owns(b) && b.Normal() && 1 <= b.Value() && 1 <= k && j < |p5s|
      requires b.Value() * Pow(5, Left(j, k)) < Weight(0x4000)
      modifies this`freelist, this`free, this`p5s, free, b
      ensures Valid() && Owns(r) && r.Normal() && 1 <= r.Value() && (k / 2 != 0 ==> j + 1 < |p5s|)
      ensures r.Value() * Pow(5, Left(j + 1, k / 2)) == old(b.Value()) * Pow(5, Left(j, k))
      ensures (r == b || fresh(r) || r in old(free)) && old(p5s) <= p5s && free <= old(free) + {b}
      ensures forall n :: n in p5s ==> n in old(p5s) || fresh(n) || n in old(free) || n == b
    {
      hide ListsOk, Val, Weight, Pow, CachedPower, Left;
      r := b;
      PowerStep(r.Value(), j, k);
      PowerBound(r.Value(), j, k);
      if k % 2 == 1 {
        r := MultNode(r, j);
      }
      if k / 2 != 0 {
        NeedNode(j + 1);
      }
    }

    /** `pow5mult`: multiplies by 5 to the power `k0`. */
    method Pow5Mult(b: Bigint, k0: nat) returns (r: Bigint)
      requires Valid() && Owns(b) && b.Normal() && 1 <= b.Value() && b.Value() * Pow(5, k0) < Weight(0x4000)
      modifies this`freelist, this`free, this`p5s, free, b
      ensures Valid() && Owns(r) && r.Normal() && r.Value() == old(b.Value()) * Pow(5, k0)
      ensures (r == b || fresh(r) || r in old(free)) && old(p5s) <= p5s
      ensures forall o :: o in free ==> o in old(free) || o == b || fresh(o)
      ensures forall n :: n in p5s ==> n in old(p5s) || fresh(n) || n in old(free) || n == b
    {
      hide ListsOk, Val, Weight, Pow, CachedPower, Left, Valid;
      r := b;
      ghost var v := b.Value();
      SplitPower(v, k0);
      if k0 % 4 != 0 {
        r := MultSmall(r, k0 % 4);
      }
      var k: nat, j: nat := k0 / 4, 0;
      LeftSteps(0, k);
      if k != 0 {
        NeedNode(0);
      }
      while k != 0
        invariant Valid() && Owns(r) && r.Normal() && 1 <= r.Value()
        invariant r.Value() * Pow(5, Left(j, k)) == v * Pow(5, k0)
        invariant k != 0 ==> j < |p5s|
        invariant (r == b || fresh(r) || r in old(free)) && old(p5s) <= p5s
        invariant forall o :: o in free ==> o in old(free) || o == b || fresh(o)
        invariant forall n :: n in p5s ==> n in old(p5s) || fresh(n) || n in old(free) || n == b
        decreases k
      {
        r := Pow5Step(r, j, k);
        k := k / 2;
        j := j + 1;
      }
      LeftSteps(j, 0);
      ZerothPower(5);
    }

    /** `lshift`: multiplies by 2 to the power `k`. */
    method LShift(b: Bigint, k: nat) returns (r: Bigint)
      requires Valid() && Owns(b) && b.Normal() && k / 32 + b.wds + 1 <= 0x8000
      requires (b.wds == 0 ==> 2 <= |b.x|) && (0 < b.Value() || k < 32)
      modifies this`freelist, this`free, free
      ensures Valid() && Owns(r) && r.Normal() && r.Value() == old(b.Value()) * Pow(2, k)
      ensures r != b && (fresh(r) || r in old(free)) && free == old(free) - {r} + {b} && |r.x| >= |b.x|
    {
      hide ListsOk, Val, Weight, Pow, CachedPower, Left;
      var k1 := RoomFor(b, k / 32 + b.wds + 1);
      r := Balloc(k1);
      r.BecomeShifted(b, k);
      Bfree(b);
    }

    /** The part of `diff` after its arguments were put in order. */
    method Difference(a: Bigint, b: Bigint, sign: bool) returns (c: Bigint)
      requires Valid() && a.Normal() && b.Normal() && 1 <= b.wds <= a.wds && a !in free && b !in free && a.k <= KMAX
      requires b.Value() < a.Value()
      modifies this`freelist, this`free, free
      ensures Valid() && Owns(c) && c.Normal() && 1 <= c.wds && c.sign == sign && c.Value() == a.Value() - b.Value()
      ensures c != a && c != b && (fresh(c) || c in old(free)) && free == old(free) - {c}
    {
      hide ListsOk, Val, Weight, Pow, CachedPower;
      c := Balloc(a.k);
      c.sign := sign;
      c.BecomeDifference(a, b);
    }

    /** `diff`: the distance between two numbers; `sign` tells whether the first is smaller. */
    method Diff(a: Bigint, b: Bigint) returns (c: Bigint)
      requires Valid() && a.Normal() && b.Normal() && 1 <= a.wds && 1 <= b.wds && a !in free && b !in free
      requires a.k <= KMAX && b.k <= KMAX
      modifies this`freelist, this`free, free
      ensures Valid() && Owns(c) && c.Normal() && 1 <= c.wds && c.sign == (a.Value() < b.Value())
      ensures c.Value() == if a.Value() < b.Value() then b.Value() - a.Value() else a.Value() - b.Value()
      ensures c != a && c != b && (fresh(c) || c in old(free)) && free == old(free) - {c}
    {
      hide ListsOk, Val, Weight, Pow, CachedPower;
      var i := Cmp(a, b);
      LargerIsLonger(a, b);
      LargerIsLonger(b, a);
      if i == 0 {
        c := Balloc(0);
        c.x := c.x[0 := 0];
        c.wds := 1;
        ZeroWords(c);
      } else if i < 0 {
        c := Difference(b, a, true);
      } else {
        c := Difference(a, b, false);
      }
    }
  }
}
