/** The shortest decimal string in an interval around a quotient of big integers. */
module Shortest {
  import opened Words
  import opened Bignum
  import opened Digits

  /** What the digits are to be found for: the quotient of `b` and `s`, and how far they may be below and
      above, in units of one `s`th; `closed` tells whether the end points of the interval count. */
  datatype Problem = Problem(b: nat, s: nat, lo: nat, hi: nat, closed: bool) {
    ghost predicate Valid() {
      1 <= s <= b < 10 * s && 1 <= lo && 1 <= hi
    }

    /** `d`, a number with `i` digits after the first, lies in the interval. */
    ghost predicate Inside(d: nat, i: nat) {
      var p := Pow(10, i);
      if closed then b * p - lo * p <= d * s <= b * p + hi * p else b * p - lo * p < d * s < b * p + hi * p
    }

    /** No number with up to `i` digits after the first lies in the interval. */
    ghost predicate NoneUpTo(i: int) {
      forall j: nat, d: nat :: j <= i ==> !Inside(d, j)
    }

    /** How far `d`, a number with `i` digits after the first, is from the quotient. */
    ghost function Distance(d: nat, i: nat): nat {
      var x := d * s - b * Pow(10, i);
      if x < 0 then -x else x
    }

    /** No number with `i` digits after the first that lies in the interval is nearer to the quotient. */
    ghost predicate Nearest(d: nat, i: nat) {
      forall e: nat :: Inside(e, i) ==> Distance(d, i) <= Distance(e, i)
    }

    /** If the numbers before and after the quotient are equally near, and both lie in the interval, `d` is the even
        one; but if the upper one is just the end of the interval, it is the lower one, unless that ends in nine. */
    ghost predicate TieBroken(d: nat, i: nat)
      requires 1 <= s
    {
      var n, r := b * Pow(10, i) / s, b * Pow(10, i) % s;
      2 * r == s && Inside(n, i) && Inside(n + 1, i) ==>
        d == if closed && (n + 1) * s == (b + hi) * Pow(10, i) then (if n % 10 == 9 then n + 1 else n)
             else if n % 2 == 0 then n else n + 1
    }

    /** The one case in which the nearest number is not taken: the upper end of the interval counts and is ten, and
        nine, although nearer, lies in the interval. `w` is the number of words of the divisor; if that is one, a
        remainder of zero has no words. */
    ghost predicate NineUp(w: nat) {
      closed && 9 * s <= b && b + hi == 10 * s && b - 9 * s <= lo && 2 * (b - 9 * s) < s && (b == 9 * s ==> w > 1)
    }

    /** The upper end of the interval counts, and is the number after the quotient. */
    ghost predicate AtEnd(i: nat, r: nat) {
      closed && r + hi * Pow(10, i) == s
    }

    /** `n` is the number that the first `i + 1` digits form and `r` the remainder. */
    ghost predicate At(i: nat, n: nat, r: nat) {
      b * Pow(10, i) == n * s + r && r < s
    }

    /** The digits may stop here, rounding down. */
    ghost predicate LowOk(i: nat, r: nat) {
      r < lo * Pow(10, i) || (closed && r == lo * Pow(10, i))
    }

    /** The digits may stop here, rounding up. */
    ghost predicate HighOk(i: nat, r: nat) {
      r + hi * Pow(10, i) > s || (closed && r + hi * Pow(10, i) == s)
    }

    /** Rounding down gives a number in the interval exactly if `LowOk` holds, and likewise up. */
    lemma StopsInside(i: nat, n: nat, r: nat)
      requires Valid() && At(i, n, r)
      ensures LowOk(i, r) <==> Inside(n, i)
      ensures HighOk(i, r) <==> Inside(n + 1, i)
    {
      var p := Pow(10, i);
      ProductPositive(lo, p);
      ProductPositive(hi, p);
      Distribute(n, 1, s);
    }

    /** If neither rounding down nor up gives a number in the interval, no number with as many digits lies in it. */
    lemma NoneHere(i: nat, n: nat, r: nat)
      requires Valid() && At(i, n, r) && !LowOk(i, r) && !HighOk(i, r) && NoneUpTo(i - 1)
      ensures NoneUpTo(i)
    {
      var p := Pow(10, i);
      forall j: nat, d: nat | j <= i ensures !Inside(d, j) {
        if j == i {
          if d <= n {
            Monotone(d, n, s);
          } else {
            Monotone(n + 1, d, s);
            Distribute(n, 1, s);
          }
        }
      }
    }

    /** Between one digit and the next. */
    ghost predicate Ongoing(i: nat, n: nat, r: nat) {
      Produced(b, s, i, n, r) && r < 10 * s && NoneUpTo(i - 1) &&
      (i > 0 ==> r + hi * Pow(10, i) <= 10 * s && (closed ==> r + hi * Pow(10, i) != 10 * s) && lo * Pow(10, i) <= r)
    }
  }

  /** Whether the digits may stop at the remainder `r`, and which way they are rounded, in terms of the margins. */
  ghost predicate Choice(v: nat, lo: nat, hi: nat, closed: bool, r: nat, dig: int, none: bool, stop: bool, up: bool) {
    var low, end := r < lo || (closed && r == lo), closed && r + hi == v;
    if !stop then !low && r + hi <= v && !end
    else && (if up then r + hi > v || end else low)
         && (end ==> (up <==> if r == 0 then dig == 9 && !none else dig == 9 || r > lo))
         && (!end && low ==> (up <==> r + hi > v && (2 * r > v || (2 * r == v && dig % 2 == 1))))
  }

  lemma ChoiceMeans(p: Problem, i: nat, r: nat, dig: int, none: bool, stop: bool, up: bool)
    requires Choice(p.s, p.lo * Pow(10, i), p.hi * Pow(10, i), p.closed, r, dig, none, stop, up)
    ensures if stop then Decided(p, i, r, dig, none, up) else !p.LowOk(i, r) && !p.HighOk(i, r)
  {
  }

  /** Which of the two numbers around the quotient is nearest among those in the interval. */
  lemma NearestOf(p: Problem, i: nat, n: nat, r: nat, up: bool)
    requires p.Valid() && p.At(i, n, r) && if up then p.HighOk(i, r) else p.LowOk(i, r)
    ensures p.Nearest(if up then n + 1 else n, i) <==>
            if up then !(p.LowOk(i, r) && 2 * r < p.s) else !(p.HighOk(i, r) && 2 * r > p.s)
  {
    p.StopsInside(i, n, r);
    var d := if up then n + 1 else n;
    Distances(p, i, n, r, n);
    Distances(p, i, n, r, n + 1);
    forall e: nat | p.Inside(e, i)
      ensures if e <= n then p.Distance(e, i) >= r && p.LowOk(i, r) else p.Distance(e, i) >= p.s - r && p.HighOk(i, r)
    {
      Distances(p, i, n, r, e);
      Convex(p, i, n, r, e);
    }
  }

  /** If a number lies in the interval, so does the one before or after the quotient on its side. */
  lemma Convex(p: Problem, i: nat, n: nat, r: nat, e: nat)
    requires p.Valid() && p.At(i, n, r) && p.Inside(e, i)
    ensures if e <= n then p.LowOk(i, r) else p.HighOk(i, r)
  {
    if e <= n {
      Monotone(e, n, p.s);
    } else {
      Monotone(n + 1, e, p.s);
      Distribute(n, 1, p.s);
    }
  }

  lemma Distances(p: Problem, i: nat, n: nat, r: nat, e: nat)
    requires p.Valid() && p.At(i, n, r)
    ensures p.Distance(n, i) == r && p.Distance(n + 1, i) == p.s - r
    ensures if e <= n then p.Distance(e, i) >= r else p.Distance(e, i) >= p.s - r
  {
    Distribute(n, 1, p.s);
    if e <= n {
      Monotone(e, n, p.s);
    } else {
      Monotone(n + 1, e, p.s);
    }
  }

  /** Whether the code rounds up where it stops, after the digit `dig`, `none` telling that the remainder has no
      words. */
  ghost predicate Decided(p: Problem, i: nat, r: nat, dig: int, none: bool, up: bool) {
    && (if up then p.HighOk(i, r) else p.LowOk(i, r))
    && (p.AtEnd(i, r) ==> (up <==> if r == 0 then dig == 9 && !none else dig == 9 || r > p.lo * Pow(10, i)))
    && (!p.AtEnd(i, r) && p.LowOk(i, r) ==>
          (up <==> p.HighOk(i, r) && (2 * r > p.s || (2 * r == p.s && dig % 2 == 1))))
  }

  /** The number taken is nearest, but for a nine that is rounded up to the end of the interval. */
  lemma DecidedNearest(p: Problem, i: nat, n: nat, r: nat, dig: int, none: bool, up: bool)
    requires p.Valid() && p.At(i, n, r) && Decided(p, i, r, dig, none, up) && p.lo <= p.hi
    ensures p.Nearest(if up then n + 1 else n, i) <==>
            !(dig == 9 && p.AtEnd(i, r) && r <= p.lo * Pow(10, i) && 2 * r < p.s && (r == 0 ==> !none))
  {
    hide p.Nearest, p.At, Pow;
    NearestOf(p, i, n, r, up);
    ProductPositive(p.lo, Pow(10, i));
    Monotone(p.lo, p.hi, Pow(10, i));
  }

  lemma DecidedTie(p: Problem, i: nat, n: nat, r: nat, dig: int, none: bool, up: bool)
    requires p.Valid() && p.At(i, n, r) && n % 10 == dig && Decided(p, i, r, dig, none, up)
    ensures p.TieBroken(if up then n + 1 else n, i)
  {
    TieChoice(p, i, n, r, dig, none, up);
    p.StopsInside(i, n, r);
    EndReached(p, i, n, r);
    hide p.Inside, p.LowOk, p.HighOk, p.AtEnd, p.TieBroken, Decided;
    TieFrom(p, i, n, r, if up then n + 1 else n);
  }

  /** What is decided if both numbers are equally near. */
  lemma TieChoice(p: Problem, i: nat, n: nat, r: nat, dig: int, none: bool, up: bool)
    requires p.Valid() && n % 10 == dig && Decided(p, i, r, dig, none, up)
    ensures 2 * r == p.s && p.LowOk(i, r) && p.HighOk(i, r) ==> (up <==> if p.AtEnd(i, r) then dig == 9 else n % 2 == 1)
  {
    hide p.LowOk, p.HighOk, p.AtEnd, Pow;
    if 2 * r == p.s && p.LowOk(i, r) && p.HighOk(i, r) {
      TieLow(p, i, r);
      SameParity(n, dig);
    }
  }

  lemma SameParity(n: nat, dig: int)
    requires n % 10 == dig
    ensures n % 2 == dig % 2
  {
  }

  lemma TieFrom(p: Problem, i: nat, n: nat, r: nat, d: nat)
    requires p.Valid() && p.At(i, n, r)
    requires 2 * r == p.s && p.Inside(n, i) && p.Inside(n + 1, i) ==>
               d == if p.closed && (n + 1) * p.s == (p.b + p.hi) * Pow(10, i) then (if n % 10 == 9 then n + 1 else n)
                    else if n % 2 == 0 then n else n + 1
    ensures p.TieBroken(d, i)
  {
    hide p.Inside, Pow;
    DivMod(p.b * Pow(10, i), p.s, n, r);
  }

  lemma EndReached(p: Problem, i: nat, n: nat, r: nat)
    requires p.At(i, n, r)
    ensures p.AtEnd(i, r) <==> p.closed && (n + 1) * p.s == (p.b + p.hi) * Pow(10, i)
  {
    hide Pow;
    Distribute(n, 1, p.s);
    Distribute(p.b, p.hi, Pow(10, i));
  }

  lemma TieLow(p: Problem, i: nat, r: nat)
    requires p.LowOk(i, r)
    ensures r <= p.lo * Pow(10, i)
  {
  }

  lemma NineUpIff(p: Problem, n: nat, r: nat, w: nat)
    requires p.Valid() && p.At(0, n, r)
    ensures 1 <= n <= 9
    ensures p.NineUp(w) <==> n == 9 && p.AtEnd(0, r) && r <= p.lo * Pow(10, 0) && 2 * r < p.s && (r == 0 ==> w > 1)
  {
    PowZero();
    hide Pow;
    assert p.b == n * p.s + r;
    if n < 9 {
      Monotone(n + 1, 9, p.s);
      Distribute(n, 1, p.s);
    } else if 9 < n {
      Monotone(10, n, p.s);
    }
  }

  /** Where the digits stop, the number is nearest with just the one exception, and ties are broken as stated. */
  lemma Stopped(p: Problem, i: nat, n: nat, r: nat, dig: int, none: bool, up: bool, w: nat)
    requires p.Valid() && p.At(i, n, r) && n % 10 == dig && Decided(p, i, r, dig, none, up) && 1 <= w
    requires dig == 9 && p.HighOk(i, r) ==> i == 0
    requires (dig != 0 && r == 0 ==> (none <==> w == 1)) && (i > 0 ==> !p.NineUp(w))
    ensures p.TieBroken(if up then n + 1 else n, i)
    ensures p.lo <= p.hi ==> (p.Nearest(if up then n + 1 else n, i) <==> !p.NineUp(w))
  {
    hide p.Nearest, p.TieBroken, p.LowOk, p.NineUp, p.At, Pow;
    DecidedTie(p, i, n, r, dig, none, up);
    if p.lo <= p.hi {
      DecidedNearest(p, i, n, r, dig, none, up);
    }
    if i == 0 {
      NineUpIff(p, n, r, w);
    }
    assert dig == 9 && p.AtEnd(i, r) ==> i == 0;
  }

  /** In the exceptional case the digits stop at once. */
  lemma NineStops(p: Problem, i: nat, n: nat, r: nat, w: nat)
    requires p.Valid() && p.At(i, n, r) && !p.HighOk(i, r) && (i > 0 ==> !p.NineUp(w))
    ensures !p.NineUp(w)
  {
    hide p.NineUp, p.At, Pow;
    if i == 0 {
      NineUpIff(p, n, r, w);
    }
  }

  /** An instance: with 9.3 and margins of 0.7 the digits give ten, although nine lies in the interval. */
  lemma NineUpHappens()
    ensures var p := Problem(93, 10, 7, 7, true);
            p.Valid() && p.NineUp(2) && p.Inside(9, 0) && p.Inside(10, 0) && p.Distance(9, 0) < p.Distance(10, 0)
  {
    PowZero();
  }

  lemma NoneYet(p: Problem)
    ensures p.NoneUpTo(-1)
  {
  }

  /** The next digit. */
  lemma NextDigit(p: Problem, i: nat, n: nat, r: nat, q: nat, r1: nat)
    requires p.Valid() && p.Ongoing(i, n, r) && q == r / p.s && r1 == r % p.s
    ensures p.At(i, 10 * n + q, r1) && q <= 9
    ensures q == 9 && p.HighOk(i, r1) ==> i == 0
  {
    hide p.NoneUpTo, Pow;
    DigitStep(p.b, p.s, i, n, r, q, r1);
    Quotient(r, p.s);
    DigitBound(r, p.s, q);
  }

  /** Nothing fits yet: the search goes on with one more digit. */
  lemma GoesOn(p: Problem, i: nat, n: nat, r: nat)
    requires p.Valid() && p.At(i, n, r) && !p.LowOk(i, r) && !p.HighOk(i, r) && p.NoneUpTo(i - 1)
    ensures p.Ongoing(i + 1, n, r * 10) && p.lo * Pow(10, i) <= r
    ensures p.lo * Pow(10, i + 1) == 10 * (p.lo * Pow(10, i)) && p.hi * Pow(10, i + 1) == 10 * (p.hi * Pow(10, i))
  {
    p.NoneHere(i, n, r);
    Assoc(10, p.b, Pow(10, i));
    Assoc(10, p.lo, Pow(10, i));
    Assoc(10, p.hi, Pow(10, i));
    Assoc(10, n, p.s);
  }

  // ---- The digit loop for modes 0 and 1 ----

  /** The numbers of the loop: the remainder, the divisor and the two margins, which may be one object. */
  ghost predicate Margins(pool: Pool, b: Bigint, S: Bigint, mlo: Bigint, mhi: Bigint)
    reads pool, pool.free, pool.p5s, b, S, mlo, mhi
  {
    && Workable(pool, b, S) && pool.Owns(mlo) && pool.Owns(mhi) && mlo.Normal() && mhi.Normal()
    && 1 <= mlo.Value() && 1 <= mhi.Value() && mlo != b && mlo != S && mhi != b && mhi != S
  }

  lemma MarginsRoom(pool: Pool, b: Bigint, S: Bigint, mlo: Bigint, mhi: Bigint)
    requires Margins(pool, b, S, mlo, mhi)
    ensures S.wds <= |S.x| && b.wds <= |b.x| && mlo.wds <= |mlo.x| && mhi.wds <= |mhi.x|
    ensures 10 * S.Value() < Weight(0x8000)
    ensures 1 <= S.Value()
  {
    hide Weight, Val;
    AlignedPositive(S);
    RoomToSpare(S.Value());
  }

  lemma PositiveWords(a: Bigint)
    requires a.Normal() && 1 <= a.Value()
    ensures 1 <= a.wds
  {
    a.ZeroIfEmpty();
  }

  /** Compares the remainder with what is left of `S` above the upper margin; a zero remainder may have
      no words at all and then compares as smaller than any number, even zero. */
  method CompareHigh(pool: Pool, b: Bigint, S: Bigint, mlo: Bigint, mhi: Bigint) returns (j1: int)
    requires Margins(pool, b, S, mlo, mhi)
    modifies pool`freelist, pool`free, pool.free
    ensures Margins(pool, b, S, mlo, mhi) && unchanged(b) && unchanged(S) && unchanged(mlo) && unchanged(mhi)
    ensures forall o :: o in pool.free ==> o in old(pool.free) || fresh(o)
    ensures j1 > 0 <==> b.Value() + mhi.Value() > S.Value()
    ensures j1 == 0 ==> b.Value() + mhi.Value() == S.Value()
    ensures b.Value() + mhi.Value() == S.Value() ==> (j1 == 0 <==> b.wds > 0)
  {
    hide ListsOk, Val, Weight, Pow;
    AlignedPositive(S);
    PositiveWords(mhi);
    PositiveWords(S);
    var delta := pool.Diff(S, mhi);
    if delta.sign {
      j1 := 1;
    } else {
      j1 := Cmp(b, delta);
      if b.Value() == delta.Value() {
        EqualSize(b, delta);
      }
      NoWordsMore(b, delta);
    }
    pool.Bfree(delta);
  }

  lemma EqualSize(a: Bigint, b: Bigint)
    requires a.Normal() && b.Normal() && a.Value() == b.Value()
    ensures a.wds > 0 && b.wds > 0 ==> a.wds == b.wds
    ensures a.wds == 0 ==> a.Value() == 0
  {
    a.ZeroIfEmpty();
    if a.wds > 0 && b.wds > 0 {
      LargerIsLonger(a, b);
    }
  }

  lemma NoWordsMore(b: Bigint, d: Bigint)
    requires b.Normal() && d.Normal() && 1 <= d.wds
    ensures b.Value() == d.Value() ==> b.wds <= d.wds
  {
    if d.wds < b.wds {
      LongerIsLarger(d, b);
      ValueOfTwo(b);
    }
  }

  /** Whether the digits may stop here, and then whether the last one is to be rounded up. */
  method Decide(pool: Pool, b: Bigint, S: Bigint, mlo: Bigint, mhi: Bigint, closed: bool, dig: Digit)
    returns (stop: bool, up: bool)
    requires Margins(pool, b, S, mlo, mhi) && b.Value() < S.Value()
    modifies pool`freelist, pool`free, pool.free
    ensures forall o :: o in pool.free ==> o in old(pool.free) || fresh(o) || o == b
    ensures !stop ==> Margins(pool, b, S, mlo, mhi) && unchanged(b) && unchanged(S) && unchanged(mlo) && unchanged(mhi)
    ensures Choice(old(S.Value()), old(mlo.Value()), old(mhi.Value()), closed, old(b.Value()), dig, old(b.wds) == 0,
              stop, up)
  {
    hide ListsOk, Val, Weight, Pow;
    PositiveWords(mlo);
    b.ZeroIfEmpty();
    var j := Cmp(b, mlo);
    NoWordsMore(b, mlo);
    if b.Value() == mlo.Value() {
      SameSize(b, mlo);
    }
    var j1 := CompareHigh(pool, b, S, mlo, mhi);
    if j1 == 0 && closed {
      return true, dig == 9 || j > 0;
    }
    if j < 0 || (j == 0 && closed) {
      up := false;
      if j1 > 0 {
        up := PastHalf(pool, b, S, dig);
      }
      return true, up;
    }
    return j1 > 0, true;
  }

  /** Multiplies a number by ten; the numbers `keep` stay as they are. */
  method Ten(pool: Pool, x: Bigint, ghost keep: set<Bigint>) returns (x1: Bigint)
    requires pool.Valid() && pool.Owns(x) && x.Normal() && x.Value() * 10 < Weight(0x8000)
    requires x !in keep && forall o :: o in keep ==> pool.Owns(o)
    modifies pool`freelist, pool`free, pool.free, x
    ensures pool.Valid() && pool.Owns(x1) && x1.Normal() && x1.Value() == 10 * old(x.Value()) && x.k <= x1.k
    ensures x1 !in keep && forall o :: o in keep ==> pool.Owns(o) && unchanged(o)
    ensures forall o :: o in pool.free + {x1} ==> o in old(pool.free) || fresh(o) || o == x
  {
    hide ListsOk, Val, Weight, Pow, Pool.Valid, Bigint.Normal;
    x1 := pool.MultAdd(x, 10, 0);
  }

  /** Multiplies the remainder and the margins by ten. */
  method TimesTen(pool: Pool, b: Bigint, S: Bigint, mlo: Bigint, mhi: Bigint)
    returns (b1: Bigint, mlo1: Bigint, mhi1: Bigint)
    requires Margins(pool, b, S, mlo, mhi) && b.Value() < S.Value() && mlo.Value() <= S.Value()
    requires mhi.Value() <= S.Value()
    modifies pool`freelist, pool`free, pool.free, b, mlo, mhi
    ensures Margins(pool, b1, S, mlo1, mhi1) && unchanged(S)
    ensures b1.Value() == 10 * old(b.Value()) && mlo1.Value() == 10 * old(mlo.Value())
    ensures mhi1.Value() == 10 * old(mhi.Value())
    ensures forall o :: o in pool.free + {b1, mlo1, mhi1} ==>
            o in old(pool.free) || fresh(o) || o == b || o == mlo || o == mhi
  {
    hide ListsOk, Val, Weight, Pow, Pool.Valid, Pool.Owns, Bigint.Normal, Aligned;
    MarginsRoom(pool, b, S, mlo, mhi);
    b1 := Ten(pool, b, {S, mlo, mhi});
    if mlo == mhi {
      mhi1 := Ten(pool, mhi, {b1, S});
      mlo1 := mhi1;
    } else {
      mlo1 := Ten(pool, mlo, {b1, S, mhi});
      mhi1 := Ten(pool, mhi, {b1, S, mlo1});
    }
  }

  /** The last digit, or the carry out of a single nine. */
  method LastDigits(s0: seq<Digit>, dig: Digit, up: bool, k0: int) returns (s: seq<Digit>, k: int)
    requires up && dig == 9 ==> s0 == []
    ensures |s| == |s0| + 1 && k0 <= k <= k0 + 1 && (k != k0 ==> s == [1])
    ensures Num(s) * Pow(10, k - k0) == 10 * Num(s0) + dig + (if up then 1 else 0)
  {
    PowZero();
    k := k0;
    if up && dig == 9 {
      OneDigit(9);
      s, k := RoundOff([9], k0);
    } else if up {
      NumAppend(s0, dig + 1);
      s := s0 + [dig + 1];
    } else {
      NumAppend(s0, dig);
      s := s0 + [dig];
    }
  }

  /** One turn of the digit loop for modes 0 and 1: produces a digit and, unless the digits may stop
      here, prepares for the next one. */
  method Turn(pool: Pool, b: Bigint, S: Bigint, mlo: Bigint, mhi: Bigint, ghost p: Problem, closed: bool, ghost i: nat,
              ghost n: nat)
    returns (dig: Digit, stop: bool, up: bool, b1: Bigint, mlo1: Bigint, mhi1: Bigint)
    requires Margins(pool, b, S, mlo, mhi) && p.Valid() && S.Value() == p.s && closed == p.closed
    requires p.Ongoing(i, n, b.Value()) && (i > 0 ==> !p.NineUp(S.wds))
    requires mlo.Value() == p.lo * Pow(10, i) && mhi.Value() == p.hi * Pow(10, i)
    modifies pool`freelist, pool`free, pool.free, b, mlo, mhi
    ensures stop ==>
            var d := 10 * n + dig + (if up then 1 else 0);
            p.Inside(d, i) && p.NoneUpTo(i - 1) && (up && dig == 9 ==> i == 0) && p.TieBroken(d, i) &&
            (p.lo <= p.hi ==> (p.Nearest(d, i) <==> !p.NineUp(old(S.wds))))
    ensures (!stop ==> !p.NineUp(old(S.wds))) && (i == 0 && n == 0 ==> 1 <= dig)
    ensures !stop ==> Margins(pool, b1, S, mlo1, mhi1) && unchanged(S) && p.Ongoing(i + 1, 10 * n + dig, b1.Value())
    ensures !stop ==> mlo1.Value() == p.lo * Pow(10, i + 1) && mhi1.Value() == p.hi * Pow(10, i + 1)
    ensures !stop ==> p.lo * Pow(10, i) < p.s && p.lo * Pow(10, i) < p.lo * Pow(10, i + 1)
    ensures !stop ==> forall o :: o in pool.free + {b1, mlo1, mhi1} ==>
            o in old(pool.free) || fresh(o) || o == b || o == mlo || o == mhi
  {
    hide ListsOk, Val, Weight, Pow, Num, Produced, p.NoneUpTo, p.Inside, Pool.Valid, p.Ongoing, p.At, p.Nearest,
      p.TieBroken, p.NineUp, p.LowOk, p.HighOk, p.AtEnd, Choice, Decided;
    MarginsRoom(pool, b, S, mlo, mhi);
    OngoingParts(p, i, n, b.Value());
    ghost var r0, w := b.Value(), S.wds;
    assert 1 <= w;
    dig := QuoRem(b, S);
    ghost var r, none := b.Value(), b.wds == 0;
    stop, up := Decide(pool, b, S, mlo, mhi, closed, dig);
    TurnEnds(p, i, n, r0, dig, r, none, stop, up, w);
    b1, mlo1, mhi1 := b, mlo, mhi;
    if !stop {
      b1, mlo1, mhi1 := TimesTen(pool, b, S, mlo, mhi);
    }
  }

  /** What the digit `dig`, the remainder and the decision come to. */
  lemma TurnEnds(p: Problem, i: nat, n: nat, r0: nat, dig: nat, r: nat, none: bool, stop: bool, up: bool, w: nat)
    requires p.Valid() && p.Ongoing(i, n, r0) && dig == r0 / p.s && r == r0 % p.s && 1 <= w
    requires (dig != 0 && r == 0 ==> (none <==> w == 1)) && (i > 0 ==> !p.NineUp(w))
    requires Choice(p.s, p.lo * Pow(10, i), p.hi * Pow(10, i), p.closed, r, dig, none, stop, up)
    ensures stop ==>
            var d := 10 * n + dig + (if up then 1 else 0);
            p.Inside(d, i) && p.NoneUpTo(i - 1) && (up && dig == 9 ==> i == 0) && p.TieBroken(d, i) &&
            (p.lo <= p.hi ==> (p.Nearest(d, i) <==> !p.NineUp(w)))
    ensures i == 0 && n == 0 ==> 1 <= dig
    ensures !stop ==> !p.NineUp(w) && p.Ongoing(i + 1, 10 * n + dig, r * 10)
    ensures !stop ==> p.lo * Pow(10, i) <= r < p.s && p.hi * Pow(10, i) <= p.s && 1 <= p.lo * Pow(10, i)
    ensures !stop ==> p.lo * Pow(10, i + 1) == 10 * (p.lo * Pow(10, i))
    ensures !stop ==> p.hi * Pow(10, i + 1) == 10 * (p.hi * Pow(10, i))
  {
    hide Pow, Num, Produced, p.NoneUpTo, p.Inside, p.Ongoing, p.At, p.Nearest, p.TieBroken, p.NineUp, p.LowOk,
      p.AtEnd, Choice, Decided;
    OngoingParts(p, i, n, r0);
    NextDigit(p, i, n, r0, dig, r);
    p.StopsInside(i, 10 * n + dig, r);
    if i == 0 {
      NineUpIff(p, 10 * n + dig, r, w);
    }
    ChoiceMeans(p, i, r, dig, none, stop, up);
    MarginGrows(p, i);
    if stop {
      DecidedInside(p, i, r, dig, none, up);
      Stopped(p, i, 10 * n + dig, r, dig, none, up, w);
    } else {
      NineStops(p, i, 10 * n + dig, r, w);
      GoesOn(p, i, 10 * n + dig, r);
    }
  }

  lemma DecidedInside(p: Problem, i: nat, r: nat, dig: int, none: bool, up: bool)
    requires Decided(p, i, r, dig, none, up)
    ensures if up then p.HighOk(i, r) else p.LowOk(i, r)
  {
  }

  lemma OngoingParts(p: Problem, i: nat, n: nat, r: nat)
    requires p.Ongoing(i, n, r)
    ensures r < 10 * p.s && p.NoneUpTo(i - 1)
  {
  }

  lemma MarginGrows(p: Problem, i: nat)
    requires p.Valid()
    ensures 1 <= p.lo * Pow(10, i)
  {
    ProductPositive(p.lo, Pow(10, i));
  }

  /** The digit loop of `dtoa` for modes 0 and 1: the digits of a number in the interval such that no number with fewer
      digits lies in it. Among the numbers with as many digits none in the interval is nearer to the quotient, but for
      one case, in which a nine is rounded up; of two that are equally near the even one is taken, unless the upper
      one is the end of the interval. The upper margin is the lower one or, in `dtoa`, twice that. */
  method ShortestDigits(pool: Pool, b0: Bigint, S: Bigint, mlo0: Bigint, mhi0: Bigint, closed: bool, k0: int,
                        ghost p: Problem)
    returns (s: seq<Digit>, k: int)
    requires Margins(pool, b0, S, mlo0, mhi0) && S.Value() <= b0.Value()
    requires p == Problem(b0.Value(), S.Value(), mlo0.Value(), mhi0.Value(), closed)
    modifies pool`freelist, pool`free, pool.free, b0, mlo0, mhi0
    ensures s != [] && k0 <= k <= k0 + 1 && (k != k0 ==> s == [1])
    ensures p.Inside(Num(s) * Pow(10, k - k0), |s| - 1) && p.NoneUpTo(|s| - 2) && s[|s| - 1] != 0
    ensures 1 <= p.s && p.TieBroken(Num(s) * Pow(10, k - k0), |s| - 1)
    ensures p.lo <= p.hi ==> (p.Nearest(Num(s) * Pow(10, k - k0), |s| - 1) <==> !p.NineUp(old(S.wds)))
  {
    hide ListsOk, Val, Weight, Pow, Num, Produced, p.NoneUpTo, p.Inside, Pool.Valid, Pool.Owns, Bigint.Normal, Aligned,
      p.Ongoing, Margins, p.Nearest, p.TieBroken, p.NineUp;
    MarginsRoom(pool, b0, S, mlo0, mhi0);
    Starts(pool, b0, S, mlo0, mhi0, p);
    var b, mlo, mhi := b0, mlo0, mhi0;
    s := [];
    while true
      invariant Margins(pool, b, S, mlo, mhi) && S.wds <= |S.x| && S.Value() == p.s && p.Valid()
      invariant forall o :: o in pool.free + {b, mlo, mhi} ==>
                o in old(pool.free) || fresh(o) || o == b0 || o == mlo0 || o == mhi0
      invariant b.wds <= |b.x| && p.Ongoing(|s|, Num(s), b.Value()) && mlo.wds <= |mlo.x| && mhi.wds <= |mhi.x|
      invariant mlo.Value() == p.lo * Pow(10, |s|) && mhi.Value() == p.hi * Pow(10, |s|)
      invariant S.wds == old(S.wds) && (s != [] ==> !p.NineUp(S.wds))
      decreases p.s - p.lo * Pow(10, |s|)
    {
      var dig, stop, up;
      ghost var n := Num(s);
      dig, stop, up, b, mlo, mhi := Turn(pool, b, S, mlo, mhi, p, closed, |s|, n);
      if stop {
        ghost var d, i := 10 * n + dig + (if up then 1 else 0), |s|;
        s, k := LastDigits(s, dig, up, k0);
        LastNotZero(p, s, k - k0, d);
        return;
      }
      MarginsRoom(pool, b, S, mlo, mhi);
      NumAppend(s, dig);
      s := s + [dig];
    }
  }

  /** A final zero could have been left out. */
  lemma LastNotZero(p: Problem, s: seq<Digit>, c: nat, d: nat)
    requires p.Valid() && s != [] && Num(s) * Pow(10, c) == d && (c != 0 ==> s == [1])
    requires p.Inside(d, |s| - 1) && p.NoneUpTo(|s| - 2) && (|s| == 1 ==> 1 <= d)
    ensures s[|s| - 1] != 0
  {
    PowZero();
    if |s| == 1 {
      OneDigit(s[0]);
    } else if s[|s| - 1] == 0 {
      TenthInside(p, Num(s[..|s| - 1]), |s| - 2);
    }
  }

  lemma TenthInside(p: Problem, m: nat, j: nat)
    requires p.Inside(10 * m, j + 1)
    ensures p.Inside(m, j)
  {
    Assoc(10, p.b, Pow(10, j));
    Assoc(10, p.lo, Pow(10, j));
    Assoc(10, p.hi, Pow(10, j));
    Assoc(10, m, p.s);
  }

  lemma Starts(pool: Pool, b: Bigint, S: Bigint, mlo: Bigint, mhi: Bigint, p: Problem)
    requires Margins(pool, b, S, mlo, mhi) && S.Value() <= b.Value() && p.b == b.Value() && p.s == S.Value()
    requires p.lo == mlo.Value() && p.hi == mhi.Value()
    ensures p.Valid() && p.Ongoing(0, 0, p.b) && Num([]) == 0 && p.lo * Pow(10, 0) == p.lo && p.hi * Pow(10, 0) == p.hi
  {
    hide p.NoneUpTo;
    MarginsRoom(pool, b, S, mlo, mhi);
    FirstDigit(p.b, p.s);
    NoneYet(p);
    PowZero();
  }
}
