/** What the format of heap images guards against: words that have been altered, streams that end too early, and
    anything that is no image. */
module ImageChecks {
  import opened Heap
  import opened Words
  import opened Bits
  import opened ImageFormat

  // ---- Checksums ----

  /** The checksum takes in one word after the other. */
  lemma {:induction false} SumOfParts(sum: nat, ws: seq<Word>, vs: seq<Word>)
    ensures ChecksumFrom(sum, ws + vs) == Xor(ChecksumFrom(sum, ws), ChecksumFrom(0, vs))
    decreases |ws|
  {
    if ws == [] {
      assert ws + vs == vs;
      SumFromZero(sum, vs);
    } else {
      assert (ws + vs)[1..] == ws[1..] + vs;
      SumOfParts(Xor(sum, Raw32(ws[0])), ws[1..], vs);
    }
  }

  lemma {:induction false} SumFromZero(sum: nat, ws: seq<Word>)
    ensures ChecksumFrom(sum, ws) == Xor(sum, ChecksumFrom(0, ws))
    decreases |ws|
  {
    if ws == [] {
      XorSwap(sum, 0);
    } else {
      var w := Raw32(ws[0]);
      SumFromZero(Xor(sum, w), ws[1..]);
      SumFromZero(Xor(0, w), ws[1..]);
      XorAssoc(sum, w, ChecksumFrom(0, ws[1..]));
    }
  }

  /** The checksum of no words, of one word, and of words put together. */
  lemma SumLaws(w: Word, ws: seq<Word>, vs: seq<Word>)
    ensures Checksum([]) == Imm(0xDEC0DE) && Checksum([w]) == Imm(Xor(0xDEC0DE, Raw32(w)))
    ensures Checksum(ws + vs) == Imm(Xor(Num(Checksum(ws)), Xor(0xDEC0DE, Num(Checksum(vs)))))
  {
    hide Xor, Raw32;
    SumOfParts(CHECKSUM_START, ws, vs);
    SumFromZero(CHECKSUM_START, vs);
    var v := ChecksumFrom(0, vs);
    XorAssoc(CHECKSUM_START, CHECKSUM_START, v);
    XorSelf(CHECKSUM_START);
    XorSwap(0, v);
    XorZero(v);
    SumOfOne(CHECKSUM_START, w);
  }

  lemma SumOfOne(sum: nat, w: Word)
    ensures ChecksumFrom(sum, [w]) == Xor(sum, Raw32(w)) && ChecksumFrom(sum, []) == sum
  {
    assert [w][1..] == [];
  }

  /** Areas of the same length that differ in one word have different checksums. */
  lemma OneAltered(ws: seq<Word>, j: nat, w: Word)
    requires j < |ws| && Raw32(w) != Raw32(ws[j])
    ensures Checksum(ws[j := w]) != Checksum(ws)
  {
    hide Xor, Raw32, ChecksumFrom;
    SumWith(ws, j, ws[j]);
    SumWith(ws, j, w);
    assert ws[j := ws[j]] == ws;
    var a, b := ChecksumFrom(CHECKSUM_START, ws[..j]), ChecksumFrom(0, ws[j + 1..]);
    XorSwap(Raw32(w), b);
    XorSwap(Raw32(ws[j]), b);
    XorApart(b, Raw32(w), Raw32(ws[j]));
    XorApart(a, Xor(Raw32(w), b), Xor(Raw32(ws[j]), b));
  }

  lemma SumWith(ws: seq<Word>, j: nat, w: Word)
    requires j < |ws|
    ensures ChecksumFrom(CHECKSUM_START, ws[j := w]) ==
            Xor(ChecksumFrom(CHECKSUM_START, ws[..j]), Xor(Raw32(w), ChecksumFrom(0, ws[j + 1..])))
  {
    var rest := [w] + ws[j + 1..];
    assert ws[j := w] == ws[..j] + rest;
    SumOfParts(CHECKSUM_START, ws[..j], rest);
    assert rest[1..] == ws[j + 1..];
    SumFromZero(Raw32(w), ws[j + 1..]);
  }

  /** The word is one that the machine can hold without loss, and no marker of the collector. */
  predicate Fits32(w: Word) {
    match w
    case Imm(n) => -0x20000000 <= n < 0x20000000
    case Hdr(_, len) => len < 0x4000000
    case Ptr(_, addr) => 0 <= addr < 0x40000000 && addr % 2 == 0
    case Evacuated => false
    case Dead => true
  }

  lemma RawValue(w: Word)
    requires Fits32(w)
    ensures Raw32(w) ==
            match w
            case Imm(n) => if n >= 0 then 4 * n else 4 * n + WORD
            case Hdr(kind, len) => 64 * len + 8 * KindBits(kind) + 2
            case Ptr(tag, addr) => 4 * addr + TagBits(tag)
            case Evacuated => 1
            case Dead => 6
  {
    if w.Imm? && w.n < 0 {
      DivMod(4 * w.n, WORD, -1, 4 * w.n + WORD);
    }
  }

  /** Different words are different for the machine. */
  lemma RawApart(w: Word, v: Word)
    requires Fits32(w) && Fits32(v) && w != v
    ensures Raw32(w) != Raw32(v)
  {
    hide Raw32;
    RawValue(w);
    RawValue(v);
  }

  // ---- Streams that do not begin with what was written ----

  /** An area with any checksum behind it. */
  function GenWith(g: GenImage, sum: Word): seq<Word> {
    [Imm(g.at)] + g.desc + g.words + [sum]
  }

  function StatWith(x: StatImage, sum: Word): seq<Word> {
    [Imm(x.at)] + x.desc + [Imm(|x.words|)] + x.words + [sum]
  }

  lemma GenRefused(pre: seq<Word>, g: GenImage, sum: Word, rest: seq<Word>, i: int)
    requires GenOk(g, i) && sum != Checksum(g.words)
    ensures ParseGen(pre + GenWith(g, sum) + rest, |pre|, i) == Failed(FormatError)
  {
    hide Checksum;
    var s, head := pre + GenWith(g, sum) + rest, [Imm(g.at)] + g.desc;
    Pieces(pre, head, g.words, sum, rest);
    assert s[|pre|] == head[0] && s[|pre| + 1..|pre| + 1 + DESCRIPTOR] == g.desc;
  }

  lemma StatRefused(pre: seq<Word>, x: StatImage, sum: Word, rest: seq<Word>)
    requires StatOk(x) && sum != Checksum(x.words)
    ensures ParseStat(pre + StatWith(x, sum) + rest, |pre|) == Failed(FormatError)
  {
    hide Checksum;
    var s, head := pre + StatWith(x, sum) + rest, [Imm(x.at)] + x.desc + [Imm(|x.words|)];
    Pieces(pre, head, x.words, sum, rest);
    assert s[|pre|] == head[0] && s[|pre| + 1..|pre| + 1 + STATIC_DESCRIPTOR] == x.desc &&
           s[|pre| + 1 + STATIC_DESCRIPTOR] == head[1 + STATIC_DESCRIPTOR];
  }

  /** What follows some generations decides whether reading fails. */
  lemma {:induction false} GensThen(pre: seq<Word>, gs: seq<GenImage>, rest: seq<Word>, i: int, n: int)
    requires GensOk(gs, i) && |gs| <= n
    ensures var s := pre + EncodeGens(gs) + rest;
            var r := ParseGens(s, |pre + EncodeGens(gs)|, i + |gs|, n - |gs|);
            r.Failed? ==> ParseGens(s, |pre|, i, n) == r
    decreases |gs|
  {
    hide EncodeGen, ParseGen;
    var s := pre + EncodeGens(gs) + rest;
    if gs != [] {
      var one, more := EncodeGen(gs[0]), EncodeGens(gs[1..]);
      GensTail(gs, i);
      assert s == pre + one + (more + rest) && s == (pre + one) + more + rest;
      GenBack(pre, gs[0], more + rest, i);
      GensThen(pre + one, gs[1..], rest, i + 1, n - 1);
      assert |pre + EncodeGens(gs)| == |pre + one + more|;
    } else {
      assert pre + EncodeGens(gs) == pre;
    }
  }

  lemma {:induction false} StatsThen(pre: seq<Word>, ss: seq<StatImage>, rest: seq<Word>, n: int)
    requires StatsOk(ss) && |ss| <= n
    ensures var s := pre + EncodeStats(ss) + rest;
            var r := ParseStats(s, |pre + EncodeStats(ss)|, n - |ss|);
            r.Failed? ==> ParseStats(s, |pre|, n) == r
    decreases |ss|
  {
    hide EncodeStat, ParseStat;
    var s := pre + EncodeStats(ss) + rest;
    if ss != [] {
      var one, more := EncodeStat(ss[0]), EncodeStats(ss[1..]);
      assert StatOk(ss[0]);
      assert s == pre + one + (more + rest) && s == (pre + one) + more + rest;
      StatBack(pre, ss[0], more + rest);
      StatsThen(pre + one, ss[1..], rest, n - 1);
      assert |pre + EncodeStats(ss)| == |pre + one + more|;
    } else {
      assert pre + EncodeStats(ss) == pre;
    }
  }

  lemma {:induction false} SplitGens(gs: seq<GenImage>, i: nat)
    requires i < |gs|
    ensures EncodeGens(gs) == EncodeGens(gs[..i]) + EncodeGen(gs[i]) + EncodeGens(gs[i + 1..])
    decreases i
  {
    hide EncodeGen;
    if i > 0 {
      SplitGens(gs[1..], i - 1);
      assert gs[1..][..i - 1] == gs[..i][1..] && gs[1..][i..] == gs[i + 1..];
      Join(EncodeGen(gs[0]), EncodeGens(gs[1..i]), EncodeGen(gs[i]));
    } else {
      assert gs[..0] == [];
    }
  }

  lemma {:induction false} SplitStats(ss: seq<StatImage>, i: nat)
    requires i < |ss|
    ensures EncodeStats(ss) == EncodeStats(ss[..i]) + EncodeStat(ss[i]) + EncodeStats(ss[i + 1..])
    decreases i
  {
    hide EncodeStat;
    if i > 0 {
      SplitStats(ss[1..], i - 1);
      assert ss[1..][..i - 1] == ss[..i][1..] && ss[1..][i..] == ss[i + 1..];
      Join(EncodeStat(ss[0]), EncodeStats(ss[1..i]), EncodeStat(ss[i]));
    } else {
      assert ss[..0] == [];
    }
  }

  // ---- Altered words ----

  /** Where word `j` of generation `i` is in the stream. */
  function GenWordAt(toc: seq<int>, img: Image, i: nat, j: nat): nat
    requires i < |img.gens|
  {
    |EncodeHeader(toc)| + 3 + |EncodeGens(img.gens[..i])| + 1 + DESCRIPTOR + j
  }

  function StatWordAt(toc: seq<int>, img: Image, i: nat, j: nat): nat
    requires i < |img.stats|
  {
    |EncodeHeader(toc)| + 3 + |EncodeGens(img.gens)| + |EncodeStats(img.stats[..i])| + 2 + STATIC_DESCRIPTOR + j
  }

  lemma AlterPart(pre: seq<Word>, head: seq<Word>, ws: seq<Word>, sum: Word, rest: seq<Word>, j: nat, w: Word)
    requires j < |ws|
    ensures var s, q := pre + (head + ws + [sum] + rest), |pre| + |head| + j;
            s[q] == ws[j] && s[q := w] == pre + (head + ws[j := w] + [sum] + rest)
  {
  }

  /** The parts of the stream. */
  lemma Body(toc: seq<int>, img: Image, rest: seq<Word>)
    ensures Encode(toc, img) + rest ==
            EncodeHeader(toc) + [img.root, Imm(|img.gens|), Imm(|img.stats|)] +
            (EncodeGens(img.gens) + (EncodeStats(img.stats) + rest))
  {
    hide EncodeHeader, EncodeGens, EncodeStats;
  }

  /** Behind a header that is in order, reading fails as reading the generations does. */
  lemma FailsInGens(toc: seq<int>, root: Word, n: int, m: int, tail: seq<Word>)
    ensures var pre := EncodeHeader(toc) + [root, Imm(n), Imm(m)];
            var r := ParseGens(pre + tail, |pre|, 0, n);
            if r.Failed? then ParseImage(pre + tail) == Failed(r.error)
            else var t := ParseStats(pre + tail, r.pos, m); t.Failed? ==> ParseImage(pre + tail) == Failed(t.error)
  {
    hide EncodeHeader, ParseHeader, ParseGens, ParseStats;
    var h, sizes := EncodeHeader(toc), [root, Imm(n), Imm(m)];
    var s := h + sizes + tail;
    assert s == h + (sizes + tail);
    HeaderBack(toc, sizes + tail);
    assert s[|h|] == root && s[|h| + 1] == Imm(n) && s[|h| + 2] == Imm(m);
  }

  /** If a word of a generation is altered, the stream is refused. */
  lemma AlteredGen(toc: seq<int>, img: Image, rest: seq<Word>, i: nat, j: nat, w: Word)
    requires GensOk(img.gens, 0) && StatsOk(img.stats) && i < |img.gens| && j < |img.gens[i].words|
    requires Raw32(w) != Raw32(img.gens[i].words[j])
    ensures var s, q := Encode(toc, img) + rest, GenWordAt(toc, img, i, j);
            q < |s| && s[q] == img.gens[i].words[j] && ParseImage(s[q := w]) == Failed(FormatError)
  {
    hide Checksum, EncodeHeader, EncodeGens, EncodeStats, ParseImage, ParseGen, Raw32;
    var g, sizes := img.gens[i], [img.root, Imm(|img.gens|), Imm(|img.stats|)];
    var g1, sum := g.(words := g.words[j := w]), Checksum(g.words);
    var pre, before := EncodeHeader(toc) + sizes, EncodeGens(img.gens[..i]);
    var after := EncodeGens(img.gens[i + 1..]) + (EncodeStats(img.stats) + rest);
    Body(toc, img, rest);
    SplitGens(img.gens, i);
    assert Encode(toc, img) + rest == pre + before + ([Imm(g.at)] + g.desc + g.words + [sum] + after);
    AlterPart(pre + before, [Imm(g.at)] + g.desc, g.words, sum, after, j, w);
    assert GenOk(g, 0 + i);
    OneAltered(g.words, j, w);
    GenRefused(pre + before, g1, sum, after, i);
    var tail := GenWith(g1, sum) + after;
    assert pre + before + tail == pre + before + GenWith(g1, sum) + after;
    forall k | 0 <= k < i ensures GenOk(img.gens[..i][k], 0 + k) {
      assert GenOk(img.gens[k], 0 + k);
    }
    GensThen(pre, img.gens[..i], tail, 0, |img.gens|);
    FailsInGens(toc, img.root, |img.gens|, |img.stats|, before + tail);
    assert pre + (before + tail) == pre + before + tail;
  }

  /** If a word of a static object is altered, the stream is refused. */
  lemma AlteredStat(toc: seq<int>, img: Image, rest: seq<Word>, i: nat, j: nat, w: Word)
    requires GensOk(img.gens, 0) && StatsOk(img.stats) && i < |img.stats| && j < |img.stats[i].words|
    requires Raw32(w) != Raw32(img.stats[i].words[j])
    ensures var s, q := Encode(toc, img) + rest, StatWordAt(toc, img, i, j);
            q < |s| && s[q] == img.stats[i].words[j] && ParseImage(s[q := w]) == Failed(FormatError)
  {
    hide Checksum, EncodeHeader, EncodeGens, EncodeStats, ParseImage, ParseStat, Raw32, ParseGens;
    var x, sizes := img.stats[i], [img.root, Imm(|img.gens|), Imm(|img.stats|)];
    var x1, sum := x.(words := x.words[j := w]), Checksum(x.words);
    var pre, gs, before := EncodeHeader(toc) + sizes, EncodeGens(img.gens), EncodeStats(img.stats[..i]);
    var after, head := EncodeStats(img.stats[i + 1..]) + rest, [Imm(x.at)] + x.desc + [Imm(|x.words|)];
    Body(toc, img, rest);
    SplitStats(img.stats, i);
    assert Encode(toc, img) + rest == pre + gs + before + (head + x.words + [sum] + after);
    AlterPart(pre + gs + before, head, x.words, sum, after, j, w);
    assert StatOk(x);
    OneAltered(x.words, j, w);
    StatRefused(pre + gs + before, x1, sum, after);
    var tail := StatWith(x1, sum) + after;
    assert pre + gs + before + tail == pre + gs + before + StatWith(x1, sum) + after;
    StatsThen(pre + gs, img.stats[..i], tail, |img.stats|);
    GensBack(pre, img.gens, before + tail, 0);
    FailsInGens(toc, img.root, |img.gens|, |img.stats|, gs + (before + tail));
    assert pre + (gs + (before + tail)) == pre + gs + before + tail == pre + gs + (before + tail);
  }

  // ---- Streams that end too early ----

  lemma GenCut(pre: seq<Word>, g: GenImage, n: nat, i: int)
    requires GenOk(g, i) && n < |EncodeGen(g)|
    ensures ParseGen(pre + EncodeGen(g)[..n], |pre|, i) == Failed(ReadError)
  {
    hide Checksum;
    var s, p := pre + EncodeGen(g)[..n], |pre| + 1 + DESCRIPTOR;
    if p <= |s| {
      assert s[|pre| + 1..p] == g.desc;
    }
  }

  lemma StatCut(pre: seq<Word>, x: StatImage, n: nat)
    requires StatOk(x) && n < |EncodeStat(x)|
    ensures ParseStat(pre + EncodeStat(x)[..n], |pre|) == Failed(ReadError)
  {
    hide Checksum;
    var s, p := pre + EncodeStat(x)[..n], |pre| + 2 + STATIC_DESCRIPTOR;
    if p <= |s| {
      assert s[p - 1] == EncodeStat(x)[1 + STATIC_DESCRIPTOR] == Imm(|x.words|);
    }
  }

  lemma {:induction false} GensCut(pre: seq<Word>, gs: seq<GenImage>, n: nat, i: int)
    requires GensOk(gs, i) && n < |EncodeGens(gs)|
    ensures ParseGens(pre + EncodeGens(gs)[..n], |pre|, i, |gs|) == Failed(ReadError)
    decreases |gs|
  {
    hide EncodeGen, ParseGen;
    var one, more := EncodeGen(gs[0]), EncodeGens(gs[1..]);
    GensTail(gs, i);
    if n < |one| {
      GenCut(pre, gs[0], n, i);
      assert EncodeGens(gs)[..n] == one[..n];
    } else {
      var m := n - |one|;
      assert EncodeGens(gs)[..n] == one + more[..m];
      assert pre + EncodeGens(gs)[..n] == pre + one + more[..m];
      GenBack(pre, gs[0], more[..m], i);
      GensCut(pre + one, gs[1..], m, i + 1);
    }
  }

  lemma {:induction false} StatsCut(pre: seq<Word>, ss: seq<StatImage>, n: nat)
    requires StatsOk(ss) && n < |EncodeStats(ss)|
    ensures ParseStats(pre + EncodeStats(ss)[..n], |pre|, |ss|) == Failed(ReadError)
    decreases |ss|
  {
    hide EncodeStat, ParseStat;
    var one, more := EncodeStat(ss[0]), EncodeStats(ss[1..]);
    assert StatOk(ss[0]);
    if n < |one| {
      StatCut(pre, ss[0], n);
      assert EncodeStats(ss)[..n] == one[..n];
    } else {
      var m := n - |one|;
      assert EncodeStats(ss)[..n] == one + more[..m];
      assert pre + EncodeStats(ss)[..n] == pre + one + more[..m];
      StatBack(pre, ss[0], more[..m]);
      StatsCut(pre + one, ss[1..], m);
    }
  }

  lemma HeaderCut(toc: seq<int>, n: nat)
    requires n < |EncodeHeader(toc)|
    ensures ParseHeader(EncodeHeader(toc)[..n]) == Failed(ReadError)
  {
    var s := EncodeHeader(toc)[..n];
    if 3 + |ID| <= |s| {
      assert EncodeHeader(toc)[3..3 + |ID|] == Chars(IdChars());
      assert s[3..3 + |ID|] == EncodeHeader(toc)[3..3 + |ID|];
    }
  }

  /** No proper beginning of a stream is taken for an image. */
  lemma CutShort(toc: seq<int>, img: Image, n: nat)
    requires GensOk(img.gens, 0) && StatsOk(img.stats) && n < |Encode(toc, img)|
    ensures ParseImage(Encode(toc, img)[..n]) == Failed(ReadError)
  {
    hide EncodeHeader, EncodeGens, EncodeStats, ParseHeader, ParseGens, ParseStats, Encode;
    var h, sizes := EncodeHeader(toc), [img.root, Imm(|img.gens|), Imm(|img.stats|)];
    var pre, gs, ss := h + sizes, EncodeGens(img.gens), EncodeStats(img.stats);
    Body(toc, img, []);
    assert Encode(toc, img) == Encode(toc, img) + [] == pre + (gs + (ss + [])) == pre + gs + ss;
    var s := Encode(toc, img)[..n];
    if n < |h| {
      assert s == h[..n];
      HeaderCut(toc, n);
    } else if n < |pre| {
      assert s == h + sizes[..n - |h|];
      HeaderBack(toc, sizes[..n - |h|]);
    } else if n < |pre + gs| {
      assert s == pre + gs[..n - |pre|];
      GensCut(pre, img.gens, n - |pre|, 0);
      FailsInGens(toc, img.root, |img.gens|, |img.stats|, gs[..n - |pre|]);
    } else {
      var m := n - |pre + gs|;
      assert s == pre + gs + ss[..m] == pre + (gs + ss[..m]);
      GensBack(pre, img.gens, ss[..m], 0);
      StatsCut(pre + gs, img.stats, m);
      FailsInGens(toc, img.root, |img.gens|, |img.stats|, gs + ss[..m]);
    }
  }

  // ---- The table of contents ----

  /** The offsets in the header lead to the table of contents, which ends with a zero, and to the contents. */
  lemma TableInPlace(toc: seq<int>, img: Image)
    ensures var s := Encode(toc, img);
            && 3 <= |s| && Num(s[0]) == 12 && 12 + |ID| <= Num(s[1]) <= Num(s[2]) && Num(s[2]) - 12 + 3 < |s|
            && var table, contents := 3 + Num(s[1]) - 12, 3 + Num(s[2]) - 12;
               s[3..3 + |ID|] == Chars(IdChars()) && s[contents] == img.root && table + |toc| <= contents &&
               (forall k :: 0 <= k < |toc| ==> s[table + k] == Imm(toc[k])) &&
               (toc != [] ==> table + |toc| < contents && s[table + |toc|] == Imm(0))
  {
    hide EncodeGens, EncodeStats;
    var s, h := Encode(toc, img), EncodeHeader(toc);
    assert s[..|h|] == h && s[|h|] == img.root;
    assert h[3..3 + |ID|] == Chars(IdChars());
  }

  // ---- What is taken for an image is one ----

  /** A word that is read as `v`: the same, or, for a number, one that counts as that number. */
  predicate ReadAs(u: Word, v: Word) {
    u == v || (v.Imm? && Num(u) == v.n)
  }

  /** At `a` the stream has the words `t`. */
  ghost predicate Holds(s: seq<Word>, a: nat, t: seq<Word>) {
    a + |t| <= |s| && forall k :: 0 <= k < |t| ==> ReadAs(s[a + k], t[k])
  }

  lemma HoldsBoth(s: seq<Word>, a: nat, t: seq<Word>, u: seq<Word>)
    requires Holds(s, a, t) && Holds(s, a + |t|, u)
    ensures Holds(s, a, t + u)
  {
    forall k | 0 <= k < |t + u| ensures ReadAs(s[a + k], (t + u)[k]) {
      if |t| <= k {
        assert s[a + k] == s[a + |t| + (k - |t|)];
      }
    }
  }

  lemma OnlyGens(s: seq<Word>, pos: nat, i: int)
    requires ParseGen(s, pos, i).Parsed?
    ensures var r := ParseGen(s, pos, i);
            GenOk(r.value, i) && r.pos == pos + |EncodeGen(r.value)| && Holds(s, pos, EncodeGen(r.value))
  {
    hide Checksum;
    var g, e := ParseGen(s, pos, i).value, EncodeGen(ParseGen(s, pos, i).value);
    var p := pos + 1 + DESCRIPTOR;
    forall k | 0 <= k < |e| ensures ReadAs(s[pos + k], e[k]) {
      if 1 <= k <= DESCRIPTOR {
        assert g.desc[k - 1] == s[pos + k];
      } else if DESCRIPTOR < k < |e| - 1 {
        assert g.words[k - 1 - DESCRIPTOR] == s[pos + k];
      }
    }
  }

  lemma OnlyStats(s: seq<Word>, pos: nat)
    requires ParseStat(s, pos).Parsed?
    ensures var r := ParseStat(s, pos);
            StatOk(r.value) && r.pos == pos + |EncodeStat(r.value)| && Holds(s, pos, EncodeStat(r.value))
  {
    hide Checksum;
    var x, e := ParseStat(s, pos).value, EncodeStat(ParseStat(s, pos).value);
    forall k | 0 <= k < |e| ensures ReadAs(s[pos + k], e[k]) {
      if 1 <= k <= STATIC_DESCRIPTOR {
        assert x.desc[k - 1] == s[pos + k];
      } else if 1 + STATIC_DESCRIPTOR < k < |e| - 1 {
        assert x.words[k - 2 - STATIC_DESCRIPTOR] == s[pos + k];
      }
    }
  }

  lemma {:induction false} GensHeld(s: seq<Word>, pos: nat, i: int, n: int)
    requires ParseGens(s, pos, i, n).Parsed? && pos <= |s|
    ensures var r := ParseGens(s, pos, i, n);
            GensOk(r.value, i) && |r.value| == (if n < 0 then 0 else n) && r.pos == pos + |EncodeGens(r.value)| &&
            Holds(s, pos, EncodeGens(r.value))
    decreases n
  {
    hide EncodeGen, ParseGen, ReadAs;
    if n > 0 {
      var g := ParseGen(s, pos, i);
      OnlyGens(s, pos, i);
      GensHeld(s, g.pos, i + 1, n - 1);
      var gs := ParseGens(s, pos, i, n).value;
      assert gs[1..] == ParseGens(s, g.pos, i + 1, n - 1).value;
      HoldsBoth(s, pos, EncodeGen(g.value), EncodeGens(gs[1..]));
      forall k | 0 <= k < |gs| ensures GenOk(gs[k], i + k) {
        if k > 0 {
          assert GenOk(gs[1..][k - 1], i + 1 + (k - 1));
        }
      }
    }
  }

  lemma {:induction false} StatsHeld(s: seq<Word>, pos: nat, n: int)
    requires ParseStats(s, pos, n).Parsed? && pos <= |s|
    ensures var r := ParseStats(s, pos, n);
            StatsOk(r.value) && |r.value| == (if n < 0 then 0 else n) && r.pos == pos + |EncodeStats(r.value)| &&
            Holds(s, pos, EncodeStats(r.value))
    decreases n
  {
    hide EncodeStat, ParseStat, ReadAs;
    if n > 0 {
      var x := ParseStat(s, pos);
      OnlyStats(s, pos);
      StatsHeld(s, x.pos, n - 1);
      var ss := ParseStats(s, pos, n).value;
      assert ss[1..] == ParseStats(s, x.pos, n - 1).value;
      HoldsBoth(s, pos, EncodeStat(x.value), EncodeStats(ss[1..]));
      forall k | 0 <= k < |ss| ensures StatOk(ss[k]) {
        if k > 0 {
          assert StatOk(ss[1..][k - 1]);
        }
      }
    }
  }

  /** The offsets at the beginning of the stream are in order. */
  ghost predicate OffsetsOk(s: seq<Word>)
    requires 3 <= |s|
  {
    Num(s[0]) == 12 && 12 < Num(s[1]) <= Num(s[2])
  }

  /** Behind them is the identification of an image. */
  ghost predicate Named(s: seq<Word>) {
    3 + |ID| <= |s| && forall k :: 0 <= k < |ID| ==> s[3 + k] == Imm(ID[k] as int)
  }

  /** The stream has the offsets and the identification of an image, and its contents begin at `a`. */
  ghost predicate Identified(s: seq<Word>, a: nat) {
    && Named(s) && OffsetsOk(s) && a <= |s|
    && a == 3 + |ID| + if 12 + |ID| < Num(s[2]) then Num(s[2]) - (12 + |ID|) else 0
  }

  /** The stream has, from `a` to `pos`, what is written for the image. */
  ghost predicate HoldsImage(s: seq<Word>, a: nat, img: Image, pos: nat) {
    && a + 3 <= |s| && s[a] == img.root
    && |img.gens| == (if Num(s[a + 1]) < 0 then 0 else Num(s[a + 1]))
    && |img.stats| == (if Num(s[a + 2]) < 0 then 0 else Num(s[a + 2]))
    && pos == a + 3 + |EncodeGens(img.gens)| + |EncodeStats(img.stats)|
    && Holds(s, a + 3, EncodeGens(img.gens) + EncodeStats(img.stats))
  }

  /** Whatever is taken for an image has the identification of one, and then all that is written for the image that is
      read, with the right checksums and numbers. */
  lemma OnlyImages(s: seq<Word>)
    requires ParseImage(s).Parsed?
    ensures var img, pos := ParseImage(s).value, ParseImage(s).pos;
            GensOk(img.gens, 0) && StatsOk(img.stats) && exists a: nat :: Identified(s, a) && HoldsImage(s, a, img, pos)
  {
    hide ParseGens, ParseStats, EncodeGens, EncodeStats, ReadAs, ParseHeader;
    HeaderHeld(s);
    var a := ParseHeader(s).pos;
    var gs := ParseGens(s, a + 3, 0, Num(s[a + 1]));
    GensHeld(s, a + 3, 0, Num(s[a + 1]));
    StatsHeld(s, gs.pos, Num(s[a + 2]));
    HoldsBoth(s, a + 3, EncodeGens(gs.value), EncodeStats(ParseStats(s, gs.pos, Num(s[a + 2])).value));
    assert Identified(s, a);
  }

  lemma HeaderHeld(s: seq<Word>)
    requires ParseHeader(s).Parsed?
    ensures Identified(s, ParseHeader(s).pos)
  {
    forall k | 0 <= k < |ID| ensures s[3 + k] == Imm(ID[k] as int) {
      assert s[3..3 + |ID|][k] == Chars(IdChars())[k];
    }
  }

  /** Other offsets than those of an image, and another identification, are each refused for what they are. */
  lemma Unidentified(s: seq<Word>)
    requires 3 + |ID| <= |s|
    ensures !OffsetsOk(s) ==> ParseImage(s) == Failed(FormatError)
    ensures OffsetsOk(s) && !Named(s) ==> ParseImage(s) == Failed(VersionError)
  {
    if k :| 0 <= k < |ID| && s[3 + k] != Imm(ID[k] as int) {
      assert s[3..3 + |ID|][k] != Chars(IdChars())[k];
    }
  }
}
