/** Turning the quotient of two big integers into decimal digits: to a given number of digits rounded
    half to even, or to the shortest string in an interval, by the method of Steele and White. */
module Digits {
  import opened Words
  import opened Bignum

  type Digit = d: int | 0 <= d <= 9

  ghost function Num(s: seq<Digit>): nat {
    if s == [] then 0 else 10 * Num(s[..|s| - 1]) + s[|s| - 1]
  }

  lemma NumAppend(s: seq<Digit>, d: Digit)
    ensures Num(s + [d]) == 10 * Num(s) + d
  {
    assert (s + [d])[..|s|] == s;
  }

  /** `n / d` to the nearest integer, ties to the even one. */
  function RoundHalfEven(n: nat, d: nat): nat
    requires 1 <= d
  {
    var q, r := n / d, n % d;
    if 2 * r > d || (2 * r == d && q % 2 == 1) then q + 1 else q
  }

  /** How far `q` is from the quotient of `n` and `d`, in units of one `d`th. */
  function Off(q: int, n: nat, d: nat): nat {
    if q * d >= n then q * d - n else n - q * d
  }

  /** `q` is an integer nearest to the quotient of `n` and `d`, and the even one if there are two. */
  ghost predicate NearestEven(q: int, n: nat, d: nat) {
    forall m: int :: m != q ==> Off(q, n, d) <= Off(m, n, d) && (Off(q, n, d) == Off(m, n, d) ==> q % 2 == 0)
  }

  lemma RoundedNearest(n: nat, d: nat)
    requires 1 <= d
    ensures NearestEven(RoundHalfEven(n, d), n, d)
  {
    var q, r, z := n / d, n % d, RoundHalfEven(n, d);
    Quotient(n, d);
    Assoc(d, q, 1);
    Distribute(q, 1, d);
    forall m: int | m != z ensures Off(z, n, d) <= Off(m, n, d) && (Off(z, n, d) == Off(m, n, d) ==> z % 2 == 0) {
      if m <= q {
        Monotone(m, if m < q then q - 1 else q, d);
      } else {
        Monotone(if m > q + 1 then q + 2 else q + 1, m, d);
        Distribute(q, 2, d);
      }
    }
  }

  // ---- Rounding off ----

  /** `roundoff`: adds one to the number that the digits form, dropping the zeros this makes; if all
      digits are nines, the result is a one with the next larger exponent. */
  method RoundOff(s0: seq<Digit>, k0: int) returns (s: seq<Digit>, k: int)
    requires s0 != []
    ensures s != [] && s[|s| - 1] != 0 && |s| <= |s0| && k0 <= k <= k0 + 1
    ensures Num(s) * Pow(10, |s0| - |s| + (k - k0)) == Num(s0) + 1
    ensures k != k0 ==> s == [1]
  {
    s, k := s0, k0;
    PowZero();
    while s[|s| - 1] == 9
      invariant 1 <= |s| <= |s0| && k == k0 && (Num(s) + 1) * Pow(10, |s0| - |s|) == Num(s0) + 1
      decreases |s|
    {
      NineCarries(s, |s0|);
      if |s| == 1 {
        OneDigit(1);
        return [1], k + 1;
      }
      s := s[..|s| - 1];
    }
    ghost var t := s[..|s| - 1];
    s := s[..|s| - 1] + [s[|s| - 1] + 1];
    assert s[..|s| - 1] == t;
  }

  lemma PowZero()
    ensures Pow(10, 0) == 1
  {
  }

  lemma OneDigit(d: Digit)
    ensures Num([d]) == d
  {
    assert [d][..0] == [];
  }

  /** A final nine passes the carry on. */
  lemma NineCarries(s: seq<Digit>, n: nat)
    requires 1 <= |s| <= n && s[|s| - 1] == 9
    ensures (Num(s) + 1) * Pow(10, n - |s|) == (Num(s[..|s| - 1]) + 1) * Pow(10, n - (|s| - 1))
    ensures |s| == 1 ==> (Num(s) + 1) * Pow(10, n - |s|) == Pow(10, n - |s| + 1)
  {
    var m := Num(s[..|s| - 1]);
    Assoc(10, m + 1, Pow(10, n - |s|));
  }

  /** Drops final zeros. */
  method DropZeros(s0: seq<Digit>) returns (s: seq<Digit>)
    requires 1 <= Num(s0)
    ensures s != [] && s[|s| - 1] != 0 && |s| <= |s0| && Num(s) * Pow(10, |s0| - |s|) == Num(s0)
  {
    s := s0;
    PowZero();
    while s[|s| - 1] == 0
      invariant 1 <= |s| <= |s0| && Num(s) * Pow(10, |s0| - |s|) == Num(s0)
      decreases |s|
    {
      ZeroDrops(s, |s0|);
      s := s[..|s| - 1];
    }
  }

  lemma ZeroDrops(s: seq<Digit>, n: nat)
    requires 1 <= |s| <= n && s[|s| - 1] == 0
    ensures Num(s) * Pow(10, n - |s|) == Num(s[..|s| - 1]) * Pow(10, n - (|s| - 1))
    ensures |s| == 1 ==> Num(s) * Pow(10, n - |s|) == 0
  {
    Assoc(10, Num(s[..|s| - 1]), Pow(10, n - |s|));
    if |s| == 1 {
      assert Num(s[..0]) == 0;
    }
  }

  // ---- The digit loop for a given number of digits ----

  /** `i` digits have been produced: they and the remainder make up the number. */
  ghost predicate Produced(B: nat, sv: nat, i: nat, digits: nat, r: nat) {
    B * Pow(10, i) == digits * sv * 10 + r
  }

  lemma DigitStep(B: nat, sv: nat, i: nat, n: nat, r: nat, q: nat, r1: nat)
    requires Produced(B, sv, i, n, r) && 1 <= sv && q == r / sv && r1 == r % sv
    ensures B * Pow(10, i) == (10 * n + q) * sv + r1 && r1 < sv
    ensures Produced(B, sv, i + 1, 10 * n + q, r1 * 10)
  {
    Quotient(r, sv);
    Assoc(n, sv, 10);
    Distribute(10 * n, q, sv);
    Assoc(10, n, sv);
    Assoc(B, 10, Pow(10, i));
    assert B * Pow(10, i + 1) == 10 * (B * Pow(10, i));
  }

  lemma FirstDigit(B: nat, sv: nat)
    ensures Produced(B, sv, 0, 0, B) && Num([]) == 0
  {
    PowZero();
  }

  /** Rounding the digits produced so far is rounding the quotient. */
  lemma RoundedDigits(B: nat, sv: nat, i: nat, n: nat, r: nat, d: Digit)
    requires B * Pow(10, i) == n * sv + r && r < sv && n % 2 == d % 2
    ensures RoundHalfEven(B * Pow(10, i), sv) == if 2 * r > sv || (2 * r == sv && d % 2 == 1) then n + 1 else n
  {
    DivMod(B * Pow(10, i), sv, n, r);
  }

  lemma AtLeastOne(B: nat, sv: nat, i: nat, n: nat, r: nat)
    requires B * Pow(10, i) == n * sv + r && r < sv <= B
    ensures 1 <= n
  {
    Monotone(1, Pow(10, i), B);
  }

  /** What both digit loops need to know about the numbers they work on. */
  ghost predicate Workable(pool: Pool, b: Bigint, S: Bigint)
    reads pool, pool.free, pool.p5s, b, S
  {
    && pool.Valid() && pool.Owns(b) && pool.Owns(S) && b != S && b.Normal() && Aligned(S) && 1 <= b.k
    && 20 * S.Value() < Weight(0x7fff) && b.Value() < 10 * S.Value()
  }

  lemma RoomToSpare(sv: nat)
    requires 20 * sv < Weight(0x7fff)
    ensures 10 * sv < Weight(0x8000)
  {
    hide Weight;
    WeightMono(0x7fff, 0x8000);
  }

  /** The first `ilim` digits of the quotient, and what is left of the dividend. */
  method Generate(pool: Pool, b0: Bigint, S: Bigint, ilim: nat) returns (s: seq<Digit>, b: Bigint, dig: Digit)
    requires Workable(pool, b0, S) && S.Value() <= b0.Value() && 1 <= ilim
    modifies pool`freelist, pool`free, pool.free, b0
    ensures Workable(pool, b, S) && S.Value() == old(S.Value()) && 1 <= S.Value() && |s| == ilim && s[|s| - 1] == dig
    ensures b == b0 || fresh(b) || b in old(pool.free)
    ensures forall o :: o in pool.free ==> o in old(pool.free) || o == b0 || fresh(o)
    ensures old(b0.Value()) * Pow(10, ilim - 1) == Num(s) * S.Value() + b.Value() && b.Value() < S.Value()
  {
    hide ListsOk, Val, Weight, Pow, Num, Produced;
    AlignedPositive(S);
    ghost var B, sv := b0.Value(), S.Value();
    RoomToSpare(sv);
    b := b0;
    s := [];
    FirstDigit(B, sv);
    var i := 1;
    while true
      invariant Workable(pool, b, S) && S.Value() == sv && |s| == i - 1 && 1 <= i <= ilim
      invariant b == b0 || fresh(b) || b in old(pool.free)
      invariant forall o :: o in pool.free ==> o in old(pool.free) || o == b0 || fresh(o)
      invariant Produced(B, sv, i - 1, Num(s), b.Value())
      decreases ilim - i
    {
      ghost var r := b.Value();
      dig := QuoRem(b, S);
      DigitStep(B, sv, i - 1, Num(s), r, dig, b.Value());
      NumAppend(s, dig);
      s := s + [dig];
      if i >= ilim {
        break;
      }
      b := pool.MultAdd(b, 10, 0);
      i := i + 1;
    }
  }

  /** The digit loop of `dtoa` that produces `ilim` digits and rounds the last one. */
  method FixedDigits(pool: Pool, b0: Bigint, S: Bigint, ilim: nat, k0: int) returns (s: seq<Digit>, k: int)
    requires Workable(pool, b0, S) && S.Value() <= b0.Value() && 1 <= ilim
    modifies pool`freelist, pool`free, pool.free, b0
    ensures s != [] && s[|s| - 1] != 0 && |s| <= ilim && k0 <= k <= k0 + 1
    ensures 1 <= old(S.Value()) &&
            Num(s) * Pow(10, ilim - |s| + (k - k0)) == RoundHalfEven(old(b0.Value()) * Pow(10, ilim - 1),
              old(S.Value()))
    ensures NearestEven(Num(s) * Pow(10, ilim - |s| + (k - k0)), old(b0.Value()) * Pow(10, ilim - 1), old(S.Value()))
  {
    hide NearestEven, ListsOk, Val, Weight, Pow, Num, Produced;
    ghost var B, sv := b0.Value(), S.Value();
    var b, dig;
    s, b, dig := Generate(pool, b0, S, ilim);
    LastDigit(s, dig);
    RoundedDigits(B, sv, ilim - 1, Num(s), b.Value(), dig);
    RoundedNearest(B * Pow(10, ilim - 1), sv);
    AtLeastOne(B, sv, ilim - 1, Num(s), b.Value());
    var up := PastHalf(pool, b, S, dig);
    if up {
      s, k := RoundOff(s, k0);
    } else {
      s := DropZeros(s);
      k := k0;
    }
  }

  lemma LastDigit(s: seq<Digit>, d: Digit)
    requires s != [] && s[|s| - 1] == d
    ensures Num(s) % 2 == d % 2
  {
  }

  lemma TwoTimes(v: nat)
    ensures v * Pow(2, 1) == 2 * v
  {
    assert Pow(2, 0) == 1 && Pow(2, 1) == 2;
  }

  lemma RoomFor2(b: Bigint, sv: nat)
    requires b.Normal() && b.Value() < sv && 20 * sv < Weight(0x7fff) && 1 <= b.k
    ensures b.wds + 1 <= 0x8000 && 2 <= |b.x|
  {
    hide Weight;
    WordsOf(b, 0x7fff);
    DoubleSize(b.k - 1);
  }

  /** Whether the remainder `b` is more than half of `S`, or just half while the last digit is odd. */
  method PastHalf(pool: Pool, b: Bigint, S: Bigint, dig: Digit) returns (up: bool)
    requires Workable(pool, b, S) && b.Value() < S.Value()
    modifies pool`freelist, pool`free, pool.free
    ensures up <==> 2 * old(b.Value()) > old(S.Value()) || (2 * old(b.Value()) == old(S.Value()) && dig % 2 == 1)
    ensures forall o :: o in pool.free ==> o in old(pool.free) || fresh(o) || o == b
  {
    hide ListsOk, Val, Weight, Pow;
    RoomFor2(b, S.Value());
    AlignedPositive(S);
    TwoTimes(b.Value());
    var b2 := pool.LShift(b, 1);
    var j := Cmp(b2, S);
    if b2.Value() == S.Value() {
      SameSize(b2, S);
    }
    up := j > 0 || (j == 0 && dig % 2 == 1);
  }

  /** Numbers of equal value have equal numbers of words unless they are zero. */
  lemma SameSize(a: Bigint, b: Bigint)
    requires a.Normal() && b.Normal() && a.Value() == b.Value() >= 1
    ensures a.wds == b.wds
  {
    if a.wds < b.wds {
      LongerIsLarger(a, b);
    } else if b.wds < a.wds {
      LongerIsLarger(b, a);
    }
  }
}
