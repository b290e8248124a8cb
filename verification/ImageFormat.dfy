/** Heap images: how the generations and the static objects are written to a stream, and how a stream is
    read. A stream is a sequence of words; numbers and characters are untagged words. Sizes and addresses
    are in words. */
module ImageFormat {
  import opened Heap
  import opened Words
  import opened Bits

  // ---- Generation descriptors ----

  const NUMBER := 0
  const PARENT := 1
  const CHILD := 2
  const SPACE := 3
  const COLLECT := 4
  const VALUES := 5
  const START := 6
  const END := 7
  const TOP := 8
  const IMAGE_TOP := 9
  const ENTRY := 10
  const LAST := 14
  const NR_ENTRIES := 18
  const STATICS := 19
  const NR_STATIC := 24
  const DESCRIPTOR := 25

  /** In array headers, and so in those of entry lists. */
  const FORWARD := 1
  const BACK := 2

  /** In headers of static objects. */
  const GEN := 2
  const MARK := 3
  const OBJECT := 4
  const STATIC_DESCRIPTOR := 5

  const IMAGE_HEADER_SIZE := 12
  const ID := "MLWorks image format 1.5\n"

  function Num(w: Word): int {
    if w.Imm? then w.n else 0
  }

  // ---- Memory ----

  function Get(mem: map<int, Word>, a: int): Word {
    if a in mem then mem[a] else Dead
  }

  function Slice(mem: map<int, Word>, a: int, n: nat): (r: seq<Word>)
    ensures |r| == n && forall i :: 0 <= i < n ==> r[i] == Get(mem, a + i)
  {
    seq(n, i => Get(mem, a + i))
  }

  // ---- Checksums ----

  function TagBits(t: Tag): nat {
    match t case PairPtr => 1 case RefPtr => 3 case Pointer => 5 case Primary7 => 7
  }

  function KindBits(k: Kind): nat {
    match k
    case Record => 0 case Text => 1 case Array => 2 case ByteArray => 3
    case BackPtr => 4 case Code => 5 case Header50 => 6 case WeakArray => 7
  }

  /** The word as the machine has it. */
  function Raw32(w: Word): nat {
    match w
    case Imm(n) => 4 * n % WORD
    case Hdr(kind, len) => (64 * len + 8 * KindBits(kind) + 2) % WORD
    case Ptr(tag, addr) => (4 * addr + TagBits(tag)) % WORD
    case Evacuated => 1
    case Dead => 6
  }

  const CHECKSUM_START: nat := 0xDEC0DE

  function ChecksumFrom(sum: nat, ws: seq<Word>): nat
    decreases |ws|
  {
    if ws == [] then sum else ChecksumFrom(Xor(sum, Raw32(ws[0])), ws[1..])
  }

  function Checksum(ws: seq<Word>): Word {
    Imm(ChecksumFrom(CHECKSUM_START, ws))
  }

  // ---- Images ----

  /** A generation in an image: where its descriptor was, the descriptor, and what it held. */
  datatype GenImage = GenImage(at: int, desc: seq<Word>, words: seq<Word>)

  /** A static object: where it was, its own header, and the words of the object. */
  datatype StatImage = StatImage(at: int, desc: seq<Word>, words: seq<Word>)

  datatype Image = Image(root: Word, gens: seq<GenImage>, stats: seq<StatImage>)

  function TopOf(desc: seq<Word>, i: int): int
    requires |desc| == DESCRIPTOR
  {
    Num(if i == 0 then desc[TOP] else desc[IMAGE_TOP])
  }

  ghost predicate GenOk(g: GenImage, i: int) {
    |g.desc| == DESCRIPTOR && Num(g.desc[NUMBER]) == i && TopOf(g.desc, i) - Num(g.desc[START]) == |g.words|
  }

  ghost predicate GensOk(gs: seq<GenImage>, i: int) {
    forall k :: 0 <= k < |gs| ==> GenOk(gs[k], i + k)
  }

  ghost predicate StatOk(s: StatImage) {
    |s.desc| == STATIC_DESCRIPTOR
  }

  ghost predicate StatsOk(ss: seq<StatImage>) {
    forall k :: 0 <= k < |ss| ==> StatOk(ss[k])
  }

  function EncodeGen(g: GenImage): seq<Word> {
    [Imm(g.at)] + g.desc + g.words + [Checksum(g.words)]
  }

  function EncodeGens(gs: seq<GenImage>): seq<Word> {
    if gs == [] then [] else EncodeGen(gs[0]) + EncodeGens(gs[1..])
  }

  function EncodeStat(s: StatImage): seq<Word> {
    [Imm(s.at)] + s.desc + [Imm(|s.words|)] + s.words + [Checksum(s.words)]
  }

  function EncodeStats(ss: seq<StatImage>): seq<Word> {
    if ss == [] then [] else EncodeStat(ss[0]) + EncodeStats(ss[1..])
  }

  function Chars(s: seq<int>): (r: seq<Word>)
    ensures |r| == |s|
  {
    seq(|s|, i requires 0 <= i < |s| => Imm(s[i]))
  }

  function IdChars(): (r: seq<int>)
    ensures |r| == |ID|
  {
    seq(|ID|, i requires 0 <= i < |ID| => ID[i] as int)
  }

  function WordAlign(n: nat): nat {
    (n + 3) / 4 * 4
  }

  function Zeros(n: nat): seq<Word> {
    seq(n, _ => Imm(0))
  }

  /** The bytes for the table of contents: one more than its characters, for whole words. */
  function TableLength(toc: seq<int>): nat {
    if toc == [] then 0 else WordAlign(|toc| + 1)
  }

  function EncodeHeader(toc: seq<int>): seq<Word> {
    var table := IMAGE_HEADER_SIZE + WordAlign(|ID|);
    [Imm(IMAGE_HEADER_SIZE), Imm(table), Imm(table + TableLength(toc))] +
    (Chars(IdChars()) + Zeros(WordAlign(|ID|) - |ID|)) + (Chars(toc) + Zeros(TableLength(toc) - |toc|))
  }

  /** The image as it is written. */
  function Encode(toc: seq<int>, img: Image): seq<Word> {
    EncodeHeader(toc) + ([img.root, Imm(|img.gens|), Imm(|img.stats|)] + EncodeGens(img.gens) + EncodeStats(img.stats))
  }

  lemma Join<T>(s: seq<T>, t: seq<T>, u: seq<T>)
    ensures s + (t + u) == s + t + u
  {
  }

  lemma {:induction false} MoreGens(gs: seq<GenImage>, g: GenImage)
    ensures EncodeGens(gs + [g]) == EncodeGens(gs) + EncodeGen(g)
  {
    hide EncodeGen;
    if gs == [] {
      assert [g][1..] == [] && EncodeGen(g) + [] == EncodeGen(g) && [] + [g] == [g];
    } else {
      MoreGens(gs[1..], g);
      assert (gs + [g])[1..] == gs[1..] + [g];
      Join(EncodeGen(gs[0]), EncodeGens(gs[1..]), EncodeGen(g));
    }
  }

  lemma {:induction false} MoreStats(ss: seq<StatImage>, s: StatImage)
    ensures EncodeStats(ss + [s]) == EncodeStats(ss) + EncodeStat(s)
  {
    hide EncodeStat;
    if ss == [] {
      assert [s][1..] == [] && EncodeStat(s) + [] == EncodeStat(s) && [] + [s] == [s];
    } else {
      MoreStats(ss[1..], s);
      assert (ss + [s])[1..] == ss[1..] + [s];
      Join(EncodeStat(ss[0]), EncodeStats(ss[1..]), EncodeStat(s));
    }
  }

  // ---- Reading ----

  datatype Error = ReadError | FormatError | VersionError

  datatype Parsed<T> = Parsed(value: T, pos: nat) | Failed(error: Error)

  /** The generation with number `i`, from position `pos` on. */
  function ParseGen(s: seq<Word>, pos: nat, i: int): (r: Parsed<GenImage>)
    ensures r.Parsed? ==> pos < r.pos <= |s|
  {
    var p := pos + 1 + DESCRIPTOR;
    if p > |s| then Failed(ReadError)
    else
      var desc := s[pos + 1..p];
      if Num(desc[NUMBER]) != i then Failed(FormatError)
      else
        var live := TopOf(desc, i) - Num(desc[START]);
        if live < 0 || p + live >= |s| then Failed(ReadError)
        else if Checksum(s[p..p + live]) != s[p + live] then Failed(FormatError)
        else Parsed(GenImage(Num(s[pos]), desc, s[p..p + live]), p + live + 1)
  }

  function ParseStat(s: seq<Word>, pos: nat): (r: Parsed<StatImage>)
    ensures r.Parsed? ==> pos < r.pos <= |s|
  {
    var p := pos + 2 + STATIC_DESCRIPTOR;
    if p > |s| then Failed(ReadError)
    else
      var size := Num(s[p - 1]);
      if size < 0 || p + size >= |s| then Failed(ReadError)
      else if Checksum(s[p..p + size]) != s[p + size] then Failed(FormatError)
      else Parsed(StatImage(Num(s[pos]), s[pos + 1..p - 1], s[p..p + size]), p + size + 1)
  }

  function ParseGens(s: seq<Word>, pos: nat, i: int, n: int): Parsed<seq<GenImage>>
    decreases n
  {
    if n <= 0 then Parsed([], pos)
    else
      var g := ParseGen(s, pos, i);
      if g.Failed? then Failed(g.error) else Prepend(g.value, ParseGens(s, g.pos, i + 1, n - 1))
  }

  function ParseStats(s: seq<Word>, pos: nat, n: int): Parsed<seq<StatImage>>
    decreases n
  {
    if n <= 0 then Parsed([], pos)
    else
      var x := ParseStat(s, pos);
      if x.Failed? then Failed(x.error) else Prepend(x.value, ParseStats(s, x.pos, n - 1))
  }

  function Prepend<T>(x: T, r: Parsed<seq<T>>): Parsed<seq<T>> {
    if r.Parsed? then Parsed([x] + r.value, r.pos) else r
  }

  /** The header: where the image itself begins. */
  function ParseHeader(s: seq<Word>): Parsed<int> {
    if 3 > |s| then Failed(ReadError)
    else
      var idOffset, tableOffset, imageOffset := Num(s[0]), Num(s[1]), Num(s[2]);
      if idOffset != IMAGE_HEADER_SIZE || idOffset >= tableOffset || tableOffset > imageOffset then Failed(FormatError)
      else if 3 + |ID| > |s| then Failed(ReadError)
      else if s[3..3 + |ID|] != Chars(IdChars()) then Failed(VersionError)
      else
        var skip := if |ID| + idOffset < imageOffset then imageOffset - (|ID| + idOffset) else 0;
        if 3 + |ID| + skip > |s| then Failed(ReadError) else Parsed(imageOffset, 3 + |ID| + skip)
  }

  function ParseImage(s: seq<Word>): Parsed<Image> {
    var h := ParseHeader(s);
    if h.Failed? then Failed(h.error)
    else if h.pos + 3 > |s| then Failed(ReadError)
    else
      var gs := ParseGens(s, h.pos + 3, 0, Num(s[h.pos + 1]));
      if gs.Failed? then Failed(gs.error)
      else
        var ss := ParseStats(s, gs.pos, Num(s[h.pos + 2]));
        if ss.Failed? then Failed(ss.error) else Parsed(Image(s[h.pos], gs.value, ss.value), ss.pos)
  }

  // ---- What has been written is read again ----

  lemma Pieces(pre: seq<Word>, head: seq<Word>, words: seq<Word>, sum: Word, rest: seq<Word>)
    ensures var s, p := pre + (head + words + [sum]) + rest, |pre| + |head|;
            (forall i :: 0 <= i < |head| ==> s[|pre| + i] == head[i]) &&
            s[p..p + |words|] == words && s[p + |words|] == sum
  {
  }

  lemma GenBack(pre: seq<Word>, g: GenImage, rest: seq<Word>, i: int)
    requires GenOk(g, i)
    ensures ParseGen(pre + EncodeGen(g) + rest, |pre|, i) == Parsed(g, |pre + EncodeGen(g)|)
  {
    hide Checksum;
    var s, head := pre + EncodeGen(g) + rest, [Imm(g.at)] + g.desc;
    Pieces(pre, head, g.words, Checksum(g.words), rest);
    assert s[|pre|] == head[0] && s[|pre| + 1..|pre| + 1 + DESCRIPTOR] == g.desc;
  }

  lemma StatBack(pre: seq<Word>, x: StatImage, rest: seq<Word>)
    requires StatOk(x)
    ensures ParseStat(pre + EncodeStat(x) + rest, |pre|) == Parsed(x, |pre + EncodeStat(x)|)
  {
    hide Checksum;
    var s, head := pre + EncodeStat(x) + rest, [Imm(x.at)] + x.desc + [Imm(|x.words|)];
    Pieces(pre, head, x.words, Checksum(x.words), rest);
    assert s[|pre|] == head[0] && s[|pre| + 1..|pre| + 1 + STATIC_DESCRIPTOR] == x.desc &&
           s[|pre| + 1 + STATIC_DESCRIPTOR] == head[1 + STATIC_DESCRIPTOR];
  }

  lemma GensTail(gs: seq<GenImage>, i: int)
    requires GensOk(gs, i) && gs != []
    ensures GenOk(gs[0], i) && GensOk(gs[1..], i + 1)
  {
    forall k | 0 <= k < |gs| - 1 ensures GenOk(gs[1..][k], i + 1 + k) {
      assert GenOk(gs[k + 1], i + (k + 1));
    }
  }

  lemma {:induction false} GensBack(pre: seq<Word>, gs: seq<GenImage>, rest: seq<Word>, i: int)
    requires GensOk(gs, i)
    ensures ParseGens(pre + EncodeGens(gs) + rest, |pre|, i, |gs|) == Parsed(gs, |pre + EncodeGens(gs)|)
    decreases |gs|
  {
    hide EncodeGen, ParseGen;
    var s := pre + EncodeGens(gs) + rest;
    if gs != [] {
      var one, more := EncodeGen(gs[0]), EncodeGens(gs[1..]);
      GensTail(gs, i);
      assert s == pre + one + (more + rest) && s == pre + one + more + rest;
      GenBack(pre, gs[0], more + rest, i);
      GensBack(pre + one, gs[1..], rest, i + 1);
      assert [gs[0]] + gs[1..] == gs;
    }
  }

  lemma {:induction false} StatsBack(pre: seq<Word>, ss: seq<StatImage>, rest: seq<Word>)
    requires StatsOk(ss)
    ensures ParseStats(pre + EncodeStats(ss) + rest, |pre|, |ss|) == Parsed(ss, |pre + EncodeStats(ss)|)
    decreases |ss|
  {
    hide EncodeStat, ParseStat;
    var s := pre + EncodeStats(ss) + rest;
    if ss != [] {
      var one, more := EncodeStat(ss[0]), EncodeStats(ss[1..]);
      assert StatOk(ss[0]);
      assert s == pre + one + (more + rest) && s == pre + one + more + rest;
      StatBack(pre, ss[0], more + rest);
      StatsBack(pre + one, ss[1..], rest);
      assert [ss[0]] + ss[1..] == ss;
    }
  }

  lemma HeaderBack(toc: seq<int>, rest: seq<Word>)
    ensures ParseHeader(EncodeHeader(toc) + rest).Parsed?
    ensures ParseHeader(EncodeHeader(toc) + rest).pos == |EncodeHeader(toc)|
  {
    var s := EncodeHeader(toc) + rest;
    assert s[3..3 + |ID|] == Chars(IdChars());
  }

  /** An image that has been written is read again, whatever follows it. */
  lemma ImageBack(toc: seq<int>, img: Image, rest: seq<Word>)
    requires GensOk(img.gens, 0) && StatsOk(img.stats)
    ensures ParseImage(Encode(toc, img) + rest) == Parsed(img, |Encode(toc, img)|)
  {
    hide EncodeHeader, ParseHeader, EncodeGens, EncodeStats, ParseGens, ParseStats;
    var h, sizes, gs, ss := EncodeHeader(toc), [img.root, Imm(|img.gens|), Imm(|img.stats|)], EncodeGens(img.gens),
      EncodeStats(img.stats);
    var s := Encode(toc, img) + rest;
    assert s == h + (sizes + gs + ss + rest);
    HeaderBack(toc, sizes + gs + ss + rest);
    assert s[|h|] == img.root && s[|h| + 1] == Imm(|img.gens|) && s[|h| + 2] == Imm(|img.stats|);
    assert s == (h + sizes) + gs + (ss + rest) && s == (h + sizes + gs) + ss + rest;
    GensBack(h + sizes, img.gens, ss + rest, 0);
    StatsBack(h + sizes + gs, img.stats, rest);
  }
}
