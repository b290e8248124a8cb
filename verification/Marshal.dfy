/** Marshalling: characters as themselves, and integers in chunks of seven bits. Unsigned long integers
    have 32 bits. */
module Marshal {
  import opened Words
  import opened Bits

  type Byte = b: int | 0 <= b < 256

  /** The values that codes of a description stand for; `x` is the argument. */
  predicate Fits(code: char, x: nat) {
    match code
    case 'c' => x < 256
    case 's' => x < 0x1_0000
    case 'i' => x < WORD
    case 'l' => x < WORD
    case _ => false
  }

  predicate Known(code: char) {
    code == 'c' || code == 's' || code == 'i' || code == 'l'
  }

  /** The chunks of an integer, least significant first; all but the last have the eighth bit set. */
  function Chunks(i: nat): (r: seq<Byte>) {
    if i < 128 then [i] else [i % 128 + 128] + Chunks(i / 128)
  }

  /** `marshal_long`. */
  method MarshalLong(out0: seq<Byte>, i0: nat) returns (out: seq<Byte>)
    ensures out == out0 + Chunks(i0)
  {
    var i := i0;
    out := out0;
    while i >= 128
      invariant out + Chunks(i) == out0 + Chunks(i0)
    {
      Grow(out, i % 128 + 128, Chunks(i / 128));
      out := out + [i % 128 + 128];
      i := i / 128;
    }
    out := out + [i];
  }

  lemma Grow(s: seq<Byte>, b: Byte, t: seq<Byte>)
    ensures s + ([b] + t) == s + [b] + t
  {
  }

  /** An integer of `k` times seven bits has at most `k` chunks. */
  lemma {:induction false} ChunkCount(i: nat, k: nat)
    requires 1 <= k && i < Pow(128, k)
    ensures |Chunks(i)| <= k
  {
    if i >= 128 {
      var p := Pow(128, k - 1);
      assert k == 1 ==> p == 1;
      ChunkCount(i / 128, k - 1);
    }
  }

  /** The chunks are the digits to the base of 128, with no leading zero, and each but the last is marked. */
  lemma {:induction false} ChunkDigits(i: nat, k: nat)
    requires k < |Chunks(i)|
    ensures Chunks(i)[k] == i / Pow(128, k) % 128 + if k < |Chunks(i)| - 1 then 128 else 0
    ensures i < Pow(128, |Chunks(i)|) && (i > 0 ==> i / Pow(128, |Chunks(i)| - 1) > 0)
    ensures i == 0 ==> |Chunks(i)| == 1
    decreases i
  {
    if i >= 128 {
      var n := |Chunks(i)| - 1;
      ChunkDigits(i / 128, if k == 0 then 0 else k - 1);
      if k > 0 {
        NextDigit(i, k);
      }
      NextDigit(i, n);
      LastDigit(i, n);
    }
  }

  lemma NextDigit(i: nat, k: nat)
    requires 1 <= k
    ensures i / Pow(128, k) == i / 128 / Pow(128, k - 1)
  {
    var p, h := Pow(128, k - 1), i / 128;
    var q, r := h / p, h % p;
    assert h == p * q + r;
    Assoc(128, q, p);
    DivMod(i, 128 * p, q, 128 * r + i % 128);
  }

  lemma LastDigit(i: nat, n: nat)
    requires 1 <= n && i / 128 < Pow(128, n)
    ensures i < Pow(128, n + 1)
  {
    hide Pow;
    assert Pow(128, n + 1) == 128 * Pow(128, n) by {
      Steps(n);
    }
  }

  lemma Steps(n: nat)
    ensures Pow(128, n + 1) == 128 * Pow(128, n)
  {
  }

  // ---- Reading integers ----

  /** The chunks from position `pos` on end within five bytes of the input, as those of a long integer do. */
  predicate Ends(input: seq<Byte>, pos: nat, k: nat)
    decreases 5 - k
  {
    k < 5 && pos < |input| && (input[pos] < 128 || Ends(input, pos + 1, k + 1))
  }

  /** The value of the chunks from `pos` on, and where they end. */
  function Read(input: seq<Byte>, pos: nat): (r: (nat, nat))
    ensures pos <= r.1
    decreases |input| - pos
  {
    if pos >= |input| then (0, pos)
    else if input[pos] < 128 then (input[pos], pos + 1)
    else
      var (v, end) := Read(input, pos + 1);
      (input[pos] % 128 + 128 * v, end)
  }

  /** `unmarshal_long`. The bits of a fifth chunk that a long integer has no room for are lost. */
  method UnmarshalLong(input: seq<Byte>, pos0: nat) returns (i: nat, pos: nat)
    requires Ends(input, pos0, 0)
    ensures pos == Read(input, pos0).1 <= |input| && i == Read(input, pos0).0 % WORD
  {
    hide Or, Pow, Read, Ends, SoFar;
    Shifts();
    ReadStep(input, pos0, 0);
    i, pos := 0, pos0;
    var shift, k := 0, 0;
    var go := true;
    ghost var all := Read(input, pos0).0;
    Beginning(all);
    while go
      invariant pos0 <= pos <= |input| && shift == 7 * k && 0 <= k <= 5
      invariant go ==>
                Ends(input, pos, k) && SoFar(all, i, shift, Read(input, pos).0) &&
                Read(input, pos).1 == Read(input, pos0).1
      invariant !go ==> pos == Read(input, pos0).1 && i == all % WORD
      decreases go, 5 - k
    {
      ReadStep(input, pos, k);
      var c := input[pos];
      pos := pos + 1;
      ChunkRead(all, i, c, shift, if c < 128 then 0 else Read(input, pos).0);
      i := Or(i, c % 128 * Pow(2, shift) % WORD);
      shift := shift + 7;
      k := k + 1;
      go := c >= 128;
    }
  }

  /** `i` are the low `shift` bits of `all`, and `rest` the others. */
  ghost predicate SoFar(all: nat, i: nat, shift: nat, rest: nat) {
    i < Pow(2, shift) && all == i + Pow(2, shift) * rest
  }

  lemma Beginning(all: nat)
    ensures SoFar(all, 0, 0, all)
  {
  }

  lemma ChunkRead(all: nat, i: nat, c: Byte, shift: nat, rest: nat)
    requires SoFar(all, i, shift, c % 128 + 128 * rest)
    requires shift == 0 || shift == 7 || shift == 14 || shift == 21 || shift == 28
    ensures var j := Or(i, c % 128 * Pow(2, shift) % WORD);
            (shift < 28 ==> SoFar(all, j, shift + 7, rest)) && (rest == 0 ==> j == all % WORD)
  {
    hide Or, Pow;
    ChunkStep(i, c, shift, rest);
  }

  lemma ReadStep(input: seq<Byte>, pos: nat, k: nat)
    requires Ends(input, pos, k)
    ensures k < 5 && pos < |input|
    ensures var rest := if input[pos] < 128 then 0 else Read(input, pos + 1).0;
            Read(input, pos).0 == input[pos] % 128 + 128 * rest &&
              Read(input, pos).1 == if input[pos] < 128 then pos + 1 else Read(input, pos + 1).1
    ensures input[pos] >= 128 ==> Ends(input, pos + 1, k + 1) && k < 4
  {
  }

  lemma Shifts()
    ensures Pow(2, 0) == 1 && Pow(2, 7) == 128 && Pow(2, 14) == 0x4000 && Pow(2, 21) == 0x20_0000
    ensures Pow(2, 28) == 0x1000_0000
  {
    PowAdd(2, 7, 7);
    PowAdd(2, 14, 7);
    PowAdd(2, 21, 7);
  }

  /** Shifted chunks have no bits in common with what has been read; of the fifth, four bits are left. */
  lemma ChunkShifted(c: Byte, shift: nat)
    requires shift == 0 || shift == 7 || shift == 14 || shift == 21 || shift == 28
    ensures c % 128 * Pow(2, shift) % WORD == (if shift < 28 then c % 128 else c % 16) * Pow(2, shift)
  {
    hide Pow;
    Shifts();
    var d := c % 128;
    if shift == 28 {
      assert d % 16 == c % 16;
      Fifth(d);
    } else {
      Small(d, Pow(2, shift));
    }
  }

  lemma Fifth(d: nat)
    ensures d * 0x1000_0000 % WORD == d % 16 * 0x1000_0000
  {
  }

  lemma Small(d: nat, p: nat)
    requires d < 128 && p <= 0x20_0000
    ensures d * p % WORD == d * p
  {
    Monotone(d, 127, p);
  }

  /** One chunk more. */
  lemma ChunkStep(i: nat, c: Byte, shift: nat, rest: nat)
    requires i < Pow(2, shift) && (shift == 0 || shift == 7 || shift == 14 || shift == 21 || shift == 28)
    ensures Or(i, c % 128 * Pow(2, shift) % WORD) == i + (if shift < 28 then c % 128 else c % 16) * Pow(2, shift)
    ensures shift < 28 ==> i + c % 128 * Pow(2, shift) < Pow(2, shift + 7) <= WORD
    ensures i + Pow(2, shift) * (c % 128 + 128 * rest) == i + c % 128 * Pow(2, shift) + Pow(2, shift + 7) * rest
    ensures shift == 28 ==> i + c % 16 * Pow(2, shift) == (i + c % 128 * Pow(2, shift)) % WORD
  {
    hide Or, Pow;
    Shifts();
    ChunkShifted(c, shift);
    OrAdds(i, if shift < 28 then c % 128 else c % 16, shift);
    Spread(i, c % 128, Pow(2, shift), rest);
    PowAdd(2, shift, 7);
    if shift == 28 {
      Fits32(i, c % 128);
    }
  }

  lemma Spread(i: nat, d: nat, p: nat, rest: nat)
    requires i < p && d < 128
    ensures p * (d + 128 * rest) == d * p + p * 128 * rest && i + d * p < p * 128
  {
    Distribute(d, 128 * rest, p);
    Assoc(p, 128, rest);
    Monotone(d, 127, p);
  }

  lemma Fits32(i: nat, d: nat)
    requires i < 0x1000_0000 && d < 128
    ensures i + d % 16 * 0x1000_0000 == (i + d * 0x1000_0000) % WORD
  {
  }

  /** What follows the chunks of an integer is not read. */
  lemma {:induction false} ReadBack(pre: seq<Byte>, i: nat, rest: seq<Byte>, k: nat)
    ensures Read(pre + Chunks(i) + rest, |pre|) == (i, |pre| + |Chunks(i)|)
    ensures k + |Chunks(i)| <= 5 ==> Ends(pre + Chunks(i) + rest, |pre|, k)
    decreases i
  {
    var input := pre + Chunks(i) + rest;
    assert input[|pre|] == Chunks(i)[0];
    if i >= 128 {
      var pre1 := pre + [i % 128 + 128];
      Grow(pre, i % 128 + 128, Chunks(i / 128));
      ReadBack(pre1, i / 128, rest, k + 1);
      assert input == pre1 + Chunks(i / 128) + rest;
    }
  }

  // ---- Descriptions ----

  ghost predicate Matches(desc: string, vals: seq<nat>) {
    |vals| == |desc| && forall k :: 0 <= k < |desc| ==> Fits(desc[k], vals[k])
  }

  function EncodeOne(code: char, x: nat): seq<Byte>
    requires Fits(code, x)
  {
    if code == 'c' then [x] else Chunks(x)
  }

  /** What values are marshalled to. */
  ghost function Encode(desc: string, vals: seq<nat>): seq<Byte>
    requires Matches(desc, vals)
  {
    if desc == [] then [] else EncodeOne(desc[0], vals[0]) + Encode(desc[1..], vals[1..])
  }

  lemma {:induction false} EncodeNext(desc: string, vals: seq<nat>, n: nat)
    requires n < |desc| && n < |vals| && Matches(desc[..n], vals[..n]) && Fits(desc[n], vals[n])
    ensures Matches(desc[..n + 1], vals[..n + 1])
    ensures Encode(desc[..n + 1], vals[..n + 1]) == Encode(desc[..n], vals[..n]) + EncodeOne(desc[n], vals[n])
    decreases n
  {
    if n > 0 {
      forall k | 0 <= k < n - 1 ensures Fits(desc[1..][k], vals[1..][k]) {
        assert Fits(desc[..n][k + 1], vals[..n][k + 1]);
      }
      EncodeNext(desc[1..], vals[1..], n - 1);
      assert desc[..n][1..] == desc[1..][..n - 1] && vals[..n][1..] == vals[1..][..n - 1];
      assert desc[..n + 1][1..] == desc[1..][..n] && vals[..n + 1][1..] == vals[1..][..n];
      assert Matches(desc[..n + 1], vals[..n + 1]);
      Join(EncodeOne(desc[0], vals[0]), Encode(desc[1..][..n - 1], vals[1..][..n - 1]), EncodeOne(desc[n], vals[n]));
    } else {
      assert desc[..1][1..] == [] && vals[..1][1..] == [];
      assert Encode(desc[..1], vals[..1]) == EncodeOne(desc[0], vals[0]);
    }
  }

  lemma Join(s: seq<Byte>, t: seq<Byte>, u: seq<Byte>)
    ensures s + (t + u) == s + t + u
  {
  }

  /** `marshal`. A code that is not known is an error. */
  method MarshalAll(desc: string, vals: seq<nat>) returns (ok: bool, out: seq<Byte>)
    requires |vals| == |desc| && forall k :: 0 <= k < |desc| && Known(desc[k]) ==> Fits(desc[k], vals[k])
    ensures ok <==> forall k :: 0 <= k < |desc| ==> Known(desc[k])
    ensures ok ==> Matches(desc, vals) && out == Encode(desc, vals)
  {
    hide Encode, EncodeOne;
    out := [];
    var n := 0;
    NothingYet(desc, vals);
    while n < |desc|
      invariant 0 <= n <= |desc| && Matches(desc[..n], vals[..n]) && out == Encode(desc[..n], vals[..n])
      invariant forall k :: 0 <= k < n ==> Known(desc[k])
    {
      var code := desc[n];
      if !Known(code) {
        return false, [];
      }
      EncodeNext(desc, vals, n);
      OneCode(code, vals[n]);
      if code == 'c' {
        out := out + [vals[n]];
      } else {
        out := MarshalLong(out, vals[n]);
      }
      n := n + 1;
    }
    assert desc[..n] == desc && vals[..n] == vals;
    ok := true;
  }

  lemma NothingYet(desc: string, vals: seq<nat>)
    requires |vals| == |desc|
    ensures Matches(desc[..0], vals[..0]) && Encode(desc[..0], vals[..0]) == []
  {
  }

  lemma OneCode(code: char, x: nat)
    requires Fits(code, x)
    ensures EncodeOne(code, x) == if code == 'c' then [x] else Chunks(x)
  {
  }

  // ---- Reading descriptions ----

  /** Values and where reading them ended, or a code that is not known, or not enough input. */
  datatype Outcome = Values(vals: seq<nat>, pos: nat) | BadDesc | Overrun

  function Truncated(code: char, v: nat): nat {
    if code == 's' then v % 0x1_0000 else v % WORD
  }

  function Decode(input: seq<Byte>, pos: nat, desc: string): Outcome
    decreases |desc|
  {
    if desc == [] then Values([], pos)
    else if !Known(desc[0]) then BadDesc
    else if desc[0] == 'c' then
      if pos < |input| then Prepend(input[pos], Decode(input, pos + 1, desc[1..])) else Overrun
    else if !Ends(input, pos, 0) then Overrun
    else Prepend(Truncated(desc[0], Read(input, pos).0), Decode(input, Read(input, pos).1, desc[1..]))
  }

  function Prepend(x: nat, r: Outcome): Outcome {
    if r.Values? then Values([x] + r.vals, r.pos) else r
  }

  function PrependAll(xs: seq<nat>, r: Outcome): Outcome {
    if r.Values? then Values(xs + r.vals, r.pos) else r
  }

  lemma PrependMore(xs: seq<nat>, x: nat, r: Outcome)
    ensures PrependAll(xs, Prepend(x, r)) == PrependAll(xs + [x], r)
  {
    if r.Values? {
      assert xs + ([x] + r.vals) == xs + [x] + r.vals;
    }
  }

  /** `unmarshal`, of an input that is long enough. */
  method Unmarshal(input: seq<Byte>, pos0: nat, desc: string) returns (ok: bool, vals: seq<nat>, pos: nat)
    requires !Decode(input, pos0, desc).Overrun?
    ensures Decode(input, pos0, desc) == if ok then Values(vals, pos) else BadDesc
  {
    hide Read, Ends, Decode, Prepend, PrependAll;
    vals, pos := [], pos0;
    var n := 0;
    assert desc[0..] == desc;
    ghost var all := Decode(input, pos0, desc);
    Same(all);
    while n < |desc|
      invariant 0 <= n <= |desc| && all == PrependAll(vals, Decode(input, pos, desc[n..]))
    {
      var code := desc[n];
      DecodeStep(vals, input, pos, desc, n);
      if !Known(code) {
        return false, vals, pos;
      }
      if code == 'c' {
        vals := vals + [input[pos]];
        pos := pos + 1;
      } else {
        var i;
        i, pos := UnmarshalLong(input, pos);
        vals := vals + [if code == 's' then i % 0x1_0000 else i];
      }
      n := n + 1;
    }
    DecodeStep(vals, input, pos, desc, n);
    ok := true;
  }

  lemma DecodeStep(vals: seq<nat>, input: seq<Byte>, pos: nat, desc: string, n: nat)
    requires n <= |desc| && !PrependAll(vals, Decode(input, pos, desc[n..])).Overrun?
    ensures var r := PrependAll(vals, Decode(input, pos, desc[n..]));
            if n == |desc| then r == Values(vals, pos)
            else if !Known(desc[n]) then r == BadDesc
            else if desc[n] == 'c' then
              pos < |input| && r == PrependAll(vals + [input[pos]], Decode(input, pos + 1, desc[n + 1..]))
            else
              Ends(input, pos, 0) &&
              var (x, next) := Read(input, pos);
              r == PrependAll(vals + [Truncated(desc[n], x)], Decode(input, next, desc[n + 1..]))
  {
    hide Read, Ends;
    if n < |desc| {
      assert desc[n..][1..] == desc[n + 1..];
      if desc[n] == 'c' && pos < |input| {
        PrependMore(vals, input[pos], Decode(input, pos + 1, desc[n + 1..]));
      } else {
        PrependMore(vals, Truncated(desc[n], Read(input, pos).0), Decode(input, Read(input, pos).1, desc[n + 1..]));
      }
    } else {
      assert vals + [] == vals;
    }
  }

  lemma Same(r: Outcome)
    ensures PrependAll([], r) == r
  {
    if r.Values? {
      assert [] + r.vals == r.vals;
    }
  }

  /** Unmarshalling what has been marshalled, followed by any bytes, gives the values again and ends
      just behind them. */
  lemma {:induction false} RoundTrip(pre: seq<Byte>, desc: string, vals: seq<nat>, rest: seq<Byte>)
    requires Matches(desc, vals)
    ensures Decode(pre + Encode(desc, vals) + rest, |pre|, desc) == Values(vals, |pre| + |Encode(desc, vals)|)
    decreases |desc|
  {
    hide Read, Ends, Encode, EncodeOne, Decode;
    var input := pre + Encode(desc, vals) + rest;
    EncodeFirst(desc, vals);
    if desc != [] {
      var one, more := EncodeOne(desc[0], vals[0]), Encode(desc[1..], vals[1..]);
      RoundTrip(pre + one, desc[1..], vals[1..], rest);
      ThreeParts(pre, one, more, rest);
      assert [vals[0]] + vals[1..] == vals;
      DecodeOne(pre, desc[0], vals[0], more + rest);
    }
    DecodeFirst(input, |pre|, desc);
  }

  lemma EncodeFirst(desc: string, vals: seq<nat>)
    requires Matches(desc, vals)
    ensures if desc == [] then Encode(desc, vals) == [] && vals == []
            else Fits(desc[0], vals[0]) && Matches(desc[1..], vals[1..]) &&
                 Encode(desc, vals) == EncodeOne(desc[0], vals[0]) + Encode(desc[1..], vals[1..])
  {
  }

  lemma DecodeFirst(input: seq<Byte>, pos: nat, desc: string)
    ensures Decode(input, pos, desc) == if desc == [] then Values([], pos)
            else if !Known(desc[0]) then BadDesc
            else if desc[0] == 'c' then
              (if pos < |input| then Prepend(input[pos], Decode(input, pos + 1, desc[1..])) else Overrun)
            else if !Ends(input, pos, 0) then Overrun
            else Prepend(Truncated(desc[0], Read(input, pos).0), Decode(input, Read(input, pos).1, desc[1..]))
  {
  }

  lemma ThreeParts(pre: seq<Byte>, one: seq<Byte>, more: seq<Byte>, rest: seq<Byte>)
    ensures pre + (one + more) + rest == (pre + one) + more + rest
    ensures pre + (one + more) + rest == pre + one + (more + rest)
  {
  }

  /** The encoding of one value is read back. */
  lemma DecodeOne(pre: seq<Byte>, code: char, x: nat, rest: seq<Byte>)
    requires Fits(code, x)
    ensures var input := pre + EncodeOne(code, x) + rest;
            if code == 'c' then |EncodeOne(code, x)| == 1 && input[|pre|] == x
            else Ends(input, |pre|, 0) && Read(input, |pre|) == (x, |pre| + |EncodeOne(code, x)|) &&
                 Truncated(code, x) == x
  {
    hide Read, Ends, Chunks;
    if code == 'c' {
      assert (pre + [x] + rest)[|pre|] == x;
    } else {
      ReadBack(pre, x, rest, 0);
      FiveChunks(code, x);
      NotLost(code, x);
    }
  }

  lemma NotLost(code: char, x: nat)
    requires Fits(code, x) && code != 'c'
    ensures Truncated(code, x) == x
  {
  }

  /** Short integers take at most three bytes, the others five. */
  lemma FiveChunks(code: char, x: nat)
    requires Fits(code, x) && code != 'c'
    ensures |Chunks(x)| <= if code == 's' then 3 else 5
  {
    Powers();
    ChunkCount(x, if code == 's' then 3 else 5);
  }

  lemma Powers()
    ensures 0x1_0000 <= Pow(128, 3) && WORD <= Pow(128, 5)
  {
    assert Pow(128, 1) == 128;
    PowAdd(128, 1, 1);
    PowAdd(128, 2, 1);
    PowAdd(128, 3, 1);
    PowAdd(128, 4, 1);
  }

  /** Any integer of up to five chunks is read back, but for the bits that the type has no room for. */
  lemma IntegerBack(code: char, x: nat, pre: seq<Byte>, rest: seq<Byte>)
    requires Known(code) && code != 'c' && |Chunks(x)| <= 5
    ensures Decode(pre + Chunks(x) + rest, |pre|, [code]) ==
            Values([x % if code == 's' then 0x1_0000 else 0x1_0000_0000], |pre| + |Chunks(x)|)
  {
    hide Ends, Read;
    ReadBack(pre, x, rest, 0);
    assert [code][1..] == [];
  }
}
