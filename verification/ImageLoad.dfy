/** Loading an image: reading it, putting its parts in their new places, and relocating them. */
module ImageLoad {
  import opened Heap
  import opened ImageFormat
  import opened ImageScan
  import opened ImageUnits

  // ---- Reading ----

  /** One generation of the stream. */
  method ReadGen(s: seq<Word>, pos: nat, i: int) returns (r: Parsed<GenImage>)
    ensures r == ParseGen(s, pos, i)
  {
    hide Checksum;
    var p := pos + 1 + DESCRIPTOR;
    if p > |s| {
      return Failed(ReadError);
    }
    var at, desc := Num(s[pos]), s[pos + 1..p];
    if Num(desc[NUMBER]) != i {
      return Failed(FormatError);
    }
    var top := if i == 0 then Num(desc[TOP]) else Num(desc[IMAGE_TOP]);
    var live := top - Num(desc[START]);
    if live < 0 || p + live >= |s| {
      return Failed(ReadError);
    }
    var words := s[p..p + live];
    if s[p + live] != Checksum(words) {
      return Failed(FormatError);
    }
    r := Parsed(GenImage(at, desc, words), p + live + 1);
  }

  method ReadStat(s: seq<Word>, pos: nat) returns (r: Parsed<StatImage>)
    ensures r == ParseStat(s, pos)
  {
    hide Checksum;
    var p := pos + 2 + STATIC_DESCRIPTOR;
    if p > |s| {
      return Failed(ReadError);
    }
    var at, desc, size := Num(s[pos]), s[pos + 1..p - 1], Num(s[p - 1]);
    if size < 0 || p + size >= |s| {
      return Failed(ReadError);
    }
    var words := s[p..p + size];
    if s[p + size] != Checksum(words) {
      return Failed(FormatError);
    }
    r := Parsed(StatImage(at, desc, words), p + size + 1);
  }

  function PrependAll<T>(xs: seq<T>, r: Parsed<seq<T>>): Parsed<seq<T>> {
    if r.Parsed? then Parsed(xs + r.value, r.pos) else r
  }

  lemma PrependMore<T>(xs: seq<T>, x: T, r: Parsed<seq<T>>)
    ensures PrependAll(xs, Prepend(x, r)) == PrependAll(xs + [x], r)
  {
    if r.Parsed? {
      assert xs + ([x] + r.value) == xs + [x] + r.value;
    }
  }

  lemma PrependNone<T>(r: Parsed<seq<T>>)
    ensures PrependAll([], r) == r
  {
    if r.Parsed? {
      assert [] + r.value == r.value;
    }
  }

  method ReadGens(s: seq<Word>, pos0: nat, n: int) returns (r: Parsed<seq<GenImage>>)
    ensures r == ParseGens(s, pos0, 0, n)
  {
    hide ParseGen, PrependAll, Prepend;
    var gs, pos, i := [], pos0, 0;
    PrependNone(ParseGens(s, pos0, 0, n));
    while i < n
      invariant 0 <= i && (i <= n || i == 0) && ParseGens(s, pos0, 0, n) == PrependAll(gs, ParseGens(s, pos, i, n - i))
    {
      var g := ReadGen(s, pos, i);
      if g.Failed? {
        FailAll<GenImage>(gs, g.error);
        return Failed(g.error);
      }
      PrependMore(gs, g.value, ParseGens(s, g.pos, i + 1, n - i - 1));
      gs, pos, i := gs + [g.value], g.pos, i + 1;
    }
    AllDone(gs, pos);
    r := Parsed(gs, pos);
  }

  lemma FailAll<T>(xs: seq<T>, e: Error)
    ensures PrependAll(xs, Failed(e)) == Failed(e)
  {
  }

  lemma AllDone<T>(xs: seq<T>, pos: nat)
    ensures PrependAll(xs, Parsed([], pos)) == Parsed(xs, pos)
  {
    assert xs + [] == xs;
  }

  method ReadStats(s: seq<Word>, pos0: nat, n: int) returns (r: Parsed<seq<StatImage>>)
    ensures r == ParseStats(s, pos0, n)
  {
    hide ParseStat, PrependAll, Prepend;
    var ss, pos, i := [], pos0, 0;
    PrependNone(ParseStats(s, pos0, n));
    while i < n
      invariant 0 <= i && (i <= n || i == 0) && ParseStats(s, pos0, n) == PrependAll(ss, ParseStats(s, pos, n - i))
    {
      var x := ReadStat(s, pos);
      if x.Failed? {
        FailAll<StatImage>(ss, x.error);
        return Failed(x.error);
      }
      PrependMore(ss, x.value, ParseStats(s, x.pos, n - i - 1));
      ss, pos, i := ss + [x.value], x.pos, i + 1;
    }
    AllDone(ss, pos);
    r := Parsed(ss, pos);
  }

  /** The header: its offsets, the identification, and the table of contents, which is skipped. */
  method ReadHeader(s: seq<Word>) returns (r: Parsed<int>)
    ensures r == ParseHeader(s)
  {
    if 3 > |s| {
      return Failed(ReadError);
    }
    var idOffset, tableOffset, imageOffset := Num(s[0]), Num(s[1]), Num(s[2]);
    if idOffset != IMAGE_HEADER_SIZE || idOffset >= tableOffset || tableOffset > imageOffset {
      return Failed(FormatError);
    }
    if 3 + |ID| > |s| {
      return Failed(ReadError);
    }
    if s[3..3 + |ID|] != Chars(IdChars()) {
      return Failed(VersionError);
    }
    var idLength, pos := |ID| + idOffset, 3 + |ID|;
    while idLength < imageOffset
      invariant |ID| + idOffset <= idLength && pos == 3 + |ID| + (idLength - (|ID| + idOffset)) <= |s|
      invariant idLength <= imageOffset || idLength == |ID| + idOffset
    {
      if pos >= |s| {
        return Failed(ReadError);
      }
      pos := pos + 1;
      idLength := idLength + 1;
    }
    r := Parsed(imageOffset, pos);
  }

  /** The part of `image_load_common` that reads. */
  method ReadImage(s: seq<Word>) returns (r: Parsed<Image>)
    ensures r == ParseImage(s)
  {
    hide ParseHeader, ParseGens, ParseStats;
    var h := ReadHeader(s);
    if h.Failed? {
      return Failed(h.error);
    }
    if h.pos + 3 > |s| {
      return Failed(ReadError);
    }
    var gs := ReadGens(s, h.pos + 3, Num(s[h.pos + 1]));
    if gs.Failed? {
      return Failed(gs.error);
    }
    var ss := ReadStats(s, gs.pos, Num(s[h.pos + 2]));
    if ss.Failed? {
      return Failed(ss.error);
    }
    r := Parsed(Image(s[h.pos], gs.value, ss.value), ss.pos);
  }

  // ---- Relocating ----

  /** The links and the owner in the descriptor of a generation. */
  method FixDescriptor(ld: Loader, gen: int, ghost img: Image, ghost P: Places, ghost L: Lists, ghost i: int)
    returns (ok: bool)
    requires ListsOk(img, L) && OldApart(img) && 0 <= i < |img.gens| && gen == P.gen(i)
    requires FixedSoFar(img, P, L, ld.T, ld.mem, i, false, L.first[i])
    modifies ld`mem
    ensures if ok then FixedSoFar(img, P, L, ld.T, ld.mem, i, true, L.first[i]) else BadUnit(img, P, L, ld.T, DescU(i))
  {
    hide FixedSoFar, FixedUnit, TablesOk, FixLink, FixStaticLink, OldApart, TablesFor, PlacesOk, BadUnit, HasWords,
      ListsOk, RawUnit;
    ListsKnown(img, L);
    ghost var u, T, mem0, j := DescU(i), ld.T, ld.mem, L.first[i];
    TablesHere(img, P, L, T, mem0, i, false, j);
    RawWords(img, P, L, T, mem0, i, false, j, u);
    DescWords(img, P, L, T, mem0, i);
    ok := ld.FixEntry(gen + ENTRY + FORWARD);
    if !ok {
      BadWordOf(img, P, L, T, u, ENTRY + FORWARD);
      return;
    }
    ok := ld.FixEntry(gen + ENTRY + BACK);
    if !ok {
      BadWordOf(img, P, L, T, u, ENTRY + BACK);
      return;
    }
    HeadMoved(img, P, L, T, i);
    ok := ld.FixStatic(gen + STATICS);
    ok := ld.FixStatic(gen + STATICS + 1);
    ld.mem := ld.mem[gen + STATICS + GEN := Imm(gen)];
    DescFixed(img, P, L, T, mem0, ld.mem, i);
    OneFixed(img, P, L, T, mem0, ld.mem, u, i, false, j, i, true, j);
  }

  lemma TablesHere(img: Image, P: Places, L: Lists, T: Tables, mem: map<int, Word>, i: int, d: bool, j: int)
    requires FixedSoFar(img, P, L, T, mem, i, d, j)
    ensures TablesFor(img, P, T) && TablesOk(T) && PlacesOk(img, P)
  {
  }

  /** The words of a new descriptor that are to be fixed. */
  lemma DescWords(img: Image, P: Places, L: Lists, T: Tables, mem: map<int, Word>, i: int)
    requires ShapesOk(img) && 0 <= i < |img.gens| && HasWords(mem, P.gen(i), RawUnit(img, P, DescU(i), |img.gens|))
    ensures |img.gens[i].desc| == DESCRIPTOR
    ensures var d, g := img.gens[i].desc, P.gen(i);
            Get(mem, g + ENTRY + FORWARD) == d[ENTRY + FORWARD] && Get(mem, g + ENTRY + BACK) == d[ENTRY + BACK] &&
            Get(mem, g + STATICS) == d[STATICS] && Get(mem, g + STATICS + 1) == d[STATICS + 1] &&
            Get(mem, g + LAST + BACK) == d[LAST + BACK] && Get(mem, g + NR_ENTRIES) == d[NR_ENTRIES]
    ensures Num(Get(mem, P.gen(i) + START)) == P.start(i)
    ensures Num(Get(mem, P.gen(i) + TOP)) == P.start(i) + |img.gens[i].words|
    ensures Num(Get(mem, P.gen(i) + PARENT)) == if i + 1 < |img.gens| then P.gen(i + 1) else 0
  {
    Shapes(img, i);
    var r, g, d := RawUnit(img, P, DescU(i), |img.gens|), P.gen(i), img.gens[i].desc;
    assert forall x :: ENTRY <= x < DESCRIPTOR ==> r[x] == d[x];
    assert Get(mem, g + (ENTRY + FORWARD)) == r[ENTRY + FORWARD] && Get(mem, g + (ENTRY + BACK)) == r[ENTRY + BACK];
    assert Get(mem, g + STATICS) == r[STATICS] && Get(mem, g + (STATICS + 1)) == r[STATICS + 1];
    assert Get(mem, g + (LAST + BACK)) == r[LAST + BACK] && Get(mem, g + NR_ENTRIES) == r[NR_ENTRIES];
    assert Get(mem, g + START) == r[START] && Get(mem, g + TOP) == r[TOP] && Get(mem, g + PARENT) == r[PARENT];
  }

  /** A link of the descriptor that cannot be fixed. */
  lemma BadWordOf(img: Image, P: Places, L: Lists, T: Tables, u: Unit, x: int)
    requires ShapesOk(img) && TablesOk(T) && |L.owner| == |img.stats| && IsUnit(img, u) && u.DescU?
    requires x == ENTRY + FORWARD || x == ENTRY + BACK
    requires |img.gens[u.i].desc| == DESCRIPTOR && FixLink(T, Num(img.gens[u.i].desc[x])).None?
    ensures BadUnit(img, P, L, T, u)
  {
    assert UnitWord(img, P, L, T, u, 0, x).None?;
  }

  lemma HeadMoved(img: Image, P: Places, L: Lists, T: Tables, i: int)
    requires TablesFor(img, P, T) && OldApart(img) && ListsOk(img, L) && 0 <= i < |img.gens|
    ensures |img.gens[i].desc| == DESCRIPTOR
    ensures var d := img.gens[i].desc;
            FixStaticLink(T, Num(d[STATICS])) == Some(NewNode(img, P, L, i, L.first[i])) &&
            FixStaticLink(T, Num(d[STATICS + 1])) == Some(NewNode(img, P, L, i, L.first[i + 1] - 1))
  {
    hide OldApart, TablesFor;
    assert HeadAt(img, L, i);
    Shapes(img, i);
    NodeMoved(img, P, L, T, i, L.first[i]);
    NodeMoved(img, P, L, T, i, L.first[i + 1] - 1);
  }

  lemma DescFixed(img: Image, P: Places, L: Lists, T: Tables, mem: map<int, Word>, mem1: map<int, Word>, i: int)
    requires TablesFor(img, P, T) && |L.owner| == |img.stats| && 0 <= i < |img.gens|
    requires HasWords(mem, P.gen(i), RawUnit(img, P, DescU(i), |img.gens|))
    requires |img.gens[i].desc| == DESCRIPTOR
    requires var d, g := img.gens[i].desc, P.gen(i);
             FixLink(T, Num(d[ENTRY + FORWARD])).Some? && FixLink(T, Num(d[ENTRY + BACK])).Some? &&
               FixStaticLink(T, Num(d[STATICS])).Some? && FixStaticLink(T, Num(d[STATICS + 1])).Some? &&
             mem1 == mem[g + ENTRY + FORWARD := Imm(FixLink(T,
               Num(d[ENTRY + FORWARD])).value)][g + ENTRY + BACK := Imm(FixLink(T, Num(d[ENTRY + BACK])).value)]
                        [g + STATICS := Imm(FixStaticLink(T,
                          Num(d[STATICS])).value)][g + STATICS + 1 := Imm(FixStaticLink(T,
                          Num(d[STATICS + 1])).value)][g + STATICS + GEN := Imm(g)]
    ensures FixedUnit(img, P, L, T, mem1, DescU(i), 0) && SameOutside(mem, mem1, P.gen(i), DESCRIPTOR)
  {
    hide FixLink, FixStaticLink;
    var u, r := DescU(i), RawUnit(img, P, DescU(i), |img.gens|);
    forall x {:trigger WordFixed(img, P, L, T, mem1, u, 0, x)} | 0 <= x < DESCRIPTOR
      ensures WordFixed(img, P, L, T, mem1, u, 0, x)
    {
      assert Get(mem, P.gen(i) + x) == r[x];
      assert ENTRY <= x ==> r[x] == img.gens[i].desc[x];
    }
  }

  lemma ListsKnown(img: Image, L: Lists)
    requires ListsOk(img, L)
    ensures ShapesOk(img) && |L.first| == |img.gens| + 1 && |L.owner| == |img.stats| && L.first[0] == 0
    ensures L.first[|img.gens|] == |img.stats|
  {
  }

  /** The owner and the links of a static object. */
  method FixStatLinks(ld: Loader, stat: int, gen: int, ghost d: seq<Word>)
    requires TablesOk(ld.T) && |d| >= 2 && Get(ld.mem, stat) == d[0] && Get(ld.mem, stat + 1) == d[1]
    requires FixStaticLink(ld.T, Num(d[0])).Some? && FixStaticLink(ld.T, Num(d[1])).Some?
    modifies ld`mem
    ensures ld.mem == old(ld.mem)[stat + GEN := Imm(gen)][stat := Imm(FixStaticLink(ld.T, Num(d[0])).value)]
                                 [stat + 1 := Imm(FixStaticLink(ld.T, Num(d[1])).value)]
  {
    hide TablesOk, FixStaticLink;
    ld.mem := ld.mem[stat + GEN := Imm(gen)];
    var ok := ld.FixStatic(stat);
    ok := ld.FixStatic(stat + 1);
  }

  /** The memory `mem1` is `mem` with the owner and the links of static object `j` set. */
  ghost predicate StatLinksSet(img: Image, P: Places, L: Lists, T: Tables, mem: map<int, Word>,
                               mem1: map<int, Word>, j: int)
    requires TablesOk(T) && 0 <= j < |img.stats| && |L.owner| == |img.stats|
  {
    var d, s := img.stats[j].desc, P.stat(j);
    && |d| == STATIC_DESCRIPTOR && FixStaticLink(T, Num(d[0])).Some? && FixStaticLink(T, Num(d[1])).Some?
    && mem1 == mem[s + GEN := Imm(P.gen(L.owner[j]))][s := Imm(FixStaticLink(T, Num(d[0])).value)]
                  [s + 1 := Imm(FixStaticLink(T, Num(d[1])).value)]
  }

  /** What the loader finds at a static object that has not been fixed. */
  lemma StatReady(img: Image, P: Places, L: Lists, T: Tables, mem: map<int, Word>, i: int, j: int)
    requires ListsOk(img, L) && OldApart(img) && ScansOk(img) && 0 <= j < |img.stats|
    requires FixedSoFar(img, P, L, T, mem, i, true, j)
    ensures TablesOk(T) && |L.owner| == |img.stats| && |img.stats[j].desc| == STATIC_DESCRIPTOR && P.stat(j) % 2 == 0
    ensures var d, s := img.stats[j].desc, P.stat(j);
            Get(mem, s) == d[0] && Get(mem, s + 1) == d[1] && FixStaticLink(T, Num(d[0])).Some? &&
            FixStaticLink(T, Num(d[1])).Some?
    ensures var ws := img.stats[j].words;
            ws != [] && Footprint(ws[0]) == |ws| && ScanFits(ws, 0) && Get(mem, P.stat(j) + OBJECT) == ws[0] &&
            Slice(mem, P.stat(j) + OBJECT, |ws|) == ws
  {
    hide FixedSoFar, FixedUnit, TablesOk, FixStaticLink, OldApart, TablesFor, PlacesOk, HasWords, RawUnit, ScansOk,
      ScanFits, ListsOk;
    ListsKnown(img, L);
    TablesHere(img, P, L, T, mem, i, true, j);
    RawWords(img, P, L, T, mem, i, true, j, StatU(j));
    StatWords(img, P, mem, j);
    StatKnown(img, P, j);
    LinksMoved(img, P, L, T, j);
  }

  /** A static object whose links are set and whose words have been scanned is fixed. */
  lemma StatScanned(img: Image, P: Places, L: Lists, T: Tables, mem: map<int, Word>, mem1: map<int, Word>,
                    mem2: map<int, Word>, i: int, j: int)
    requires ListsOk(img, L) && 0 <= j < |img.stats| && TablesOk(T) && |L.owner| == |img.stats|
    requires FixedSoFar(img, P, L, T, mem, i, true, j) && StatLinksSet(img, P, L, T, mem, mem1, j)
    requires var ws := img.stats[j].words;
             ScannedTo(T, mem2, P.stat(j) + OBJECT, ws, |ws|) && SameOutside(mem1, mem2, P.stat(j) + OBJECT, |ws|)
    ensures FixedSoFar(img, P, L, T, mem2, i, true, j + 1)
  {
    hide FixedSoFar, FixedUnit, TablesOk, FixStaticLink, TablesFor, PlacesOk, HasWords, RawUnit, ScannedTo, ListsOk;
    ListsKnown(img, L);
    TablesHere(img, P, L, T, mem, i, true, j);
    RawWords(img, P, L, T, mem, i, true, j, StatU(j));
    StatFixed(img, P, L, T, mem, mem1, mem2, j);
    OneFixed(img, P, L, T, mem, mem2, StatU(j), i, true, j, i, true, j + 1);
  }

  lemma LinksOutside(img: Image, P: Places, L: Lists, T: Tables, mem: map<int, Word>, mem1: map<int, Word>, j: int)
    requires TablesOk(T) && 0 <= j < |img.stats| && |L.owner| == |img.stats| && StatLinksSet(img, P, L, T, mem, mem1, j)
    ensures SameOutside(mem, mem1, P.stat(j), OBJECT)
  {
    hide TablesOk, FixStaticLink;
  }

  /** One static object: its owner, its links, and its words. */
  method FixStatObject(ld: Loader, stat: int, gen: int, ghost img: Image, ghost P: Places, ghost L: Lists, ghost i: int,
                       ghost j: int)
    returns (ok: bool)
    requires ListsOk(img, L) && OldApart(img) && ScansOk(img) && 0 <= j < |img.stats| && L.owner[j] == i
    requires gen == P.gen(i) && stat == P.stat(j)
    requires FixedSoFar(img, P, L, ld.T, ld.mem, i, true, j)
    modifies ld`mem
    ensures if ok then FixedSoFar(img, P, L, ld.T, ld.mem, i, true, j + 1) else BadUnit(img, P, L, ld.T, StatU(j))
  {
    hide FixedSoFar, TablesOk, FixStaticLink, OldApart, BadUnit, ScannedTo, BadWord, ScansOk, ScanFits, ListsOk,
      SameOutside;
    ListsKnown(img, L);
    StatReady(img, P, L, ld.T, ld.mem, i, j);
    ghost var mem0, ws := ld.mem, img.stats[j].words;
    var header := Get(ld.mem, stat + OBJECT);
    var size := Footprint(header);
    FixStatLinks(ld, stat, gen, img.stats[j].desc);
    ghost var mem1 := ld.mem;
    assert StatLinksSet(img, P, L, ld.T, mem0, mem1, j);
    LinksOutside(img, P, L, ld.T, mem0, mem1, j);
    StillWords(mem0, mem1, stat, ws);
    ok := ld.Scan(stat + OBJECT, stat + OBJECT + size, ws);
    if ok {
      StatScanned(img, P, L, ld.T, mem0, mem1, ld.mem, i, j);
    } else {
      StatBad(img, P, L, ld.T, j);
    }
  }

  lemma StatWords(img: Image, P: Places, mem: map<int, Word>, j: int)
    requires ShapesOk(img) && 0 <= j < |img.stats| && HasWords(mem, P.stat(j), RawUnit(img, P, StatU(j), |img.gens|))
    ensures |img.stats[j].desc| == STATIC_DESCRIPTOR && Get(mem, P.stat(j)) == img.stats[j].desc[0]
    ensures Get(mem, P.stat(j) + 1) == img.stats[j].desc[1]
    ensures Slice(mem, P.stat(j) + OBJECT, |img.stats[j].words|) == img.stats[j].words
    ensures img.stats[j].words != [] ==> Get(mem, P.stat(j) + OBJECT) == img.stats[j].words[0]
  {
    Shapes(img, j);
    var r, ws := RawUnit(img, P, StatU(j), |img.gens|), img.stats[j].words;
    assert Get(mem, P.stat(j) + 0) == r[0] && Get(mem, P.stat(j) + 1) == r[1];
    forall x | 0 <= x < |ws| ensures Get(mem, P.stat(j) + OBJECT + x) == ws[x] {
      assert Get(mem, P.stat(j) + (OBJECT + x)) == r[OBJECT + x];
    }
    assert Slice(mem, P.stat(j) + OBJECT, |ws|) == ws;
  }

  lemma StatKnown(img: Image, P: Places, j: int)
    requires ScansOk(img) && PlacesOk(img, P) && 0 <= j < |img.stats|
    ensures |img.stats[j].words| > 0 && Footprint(img.stats[j].words[0]) == |img.stats[j].words|
    ensures ScanFits(img.stats[j].words, 0) && P.stat(j) % 2 == 0
  {
    assert StatScans(img, j);
  }

  lemma LinksMoved(img: Image, P: Places, L: Lists, T: Tables, j: int)
    requires TablesFor(img, P, T) && OldApart(img) && ListsOk(img, L) && 0 <= j < |img.stats|
    ensures |img.stats[j].desc| == STATIC_DESCRIPTOR && 0 <= L.owner[j] < |img.gens| && InList(L, L.owner[j], j)
    ensures var d, i := img.stats[j].desc, L.owner[j];
            FixStaticLink(T, Num(d[0])) == Some(NewNode(img, P, L, i, j + 1)) &&
            FixStaticLink(T, Num(d[1])) == Some(NewNode(img, P, L, i, j - 1))
  {
    hide OldApart, TablesFor;
    assert NodeAt(img, L, j);
    Shapes(img, j);
    NodeMoved(img, P, L, T, L.owner[j], j + 1);
    NodeMoved(img, P, L, T, L.owner[j], j - 1);
  }

  lemma StillWords(mem: map<int, Word>, mem1: map<int, Word>, stat: int, ws: seq<Word>)
    requires Slice(mem, stat + OBJECT, |ws|) == ws && SameOutside(mem, mem1, stat, OBJECT)
    ensures Slice(mem1, stat + OBJECT, |ws|) == ws
  {
    forall x | 0 <= x < |ws| ensures Slice(mem1, stat + OBJECT, |ws|)[x] == ws[x] {
      assert Slice(mem, stat + OBJECT, |ws|)[x] == ws[x];
    }
  }

  lemma StatFixed(img: Image, P: Places, L: Lists, T: Tables, mem: map<int, Word>, mem1: map<int, Word>,
                  mem2: map<int, Word>, j: int)
    requires TablesFor(img, P, T) && |L.owner| == |img.stats| && 0 <= j < |img.stats|
    requires HasWords(mem, P.stat(j), RawUnit(img, P, StatU(j), |img.gens|))
    requires |img.stats[j].desc| == STATIC_DESCRIPTOR
    requires var d, s := img.stats[j].desc, P.stat(j);
             FixStaticLink(T, Num(d[0])).Some? && FixStaticLink(T, Num(d[1])).Some? &&
             mem1 == mem[s + GEN := Imm(P.gen(L.owner[j]))][s := Imm(FixStaticLink(T,
               Num(d[0])).value)][s + 1 := Imm(FixStaticLink(T, Num(d[1])).value)]
    requires var ws := img.stats[j].words;
             ScannedTo(T, mem2, P.stat(j) + OBJECT, ws, |ws|) && SameOutside(mem1, mem2, P.stat(j) + OBJECT, |ws|)
    ensures FixedUnit(img, P, L, T, mem2, StatU(j), 0)
    ensures SameOutside(mem, mem2, P.stat(j), OBJECT + |img.stats[j].words|)
  {
    hide FixLink, FixStaticLink, DutyFrom;
    var u, r, ws := StatU(j), RawUnit(img, P, StatU(j), |img.gens|), img.stats[j].words;
    forall x {:trigger WordFixed(img, P, L, T, mem2, u, 0, x)} | 0 <= x < UnitLen(img, u)
      ensures WordFixed(img, P, L, T, mem2, u, 0, x)
    {
      assert Get(mem, P.stat(j) + x) == r[x];
      if x >= OBJECT {
        assert WordScanned(T, mem2, P.stat(j) + OBJECT, ws, |ws|, x - OBJECT);
      }
    }
  }

  lemma StatBad(img: Image, P: Places, L: Lists, T: Tables, j: int)
    requires ShapesOk(img) && TablesOk(T) && |L.owner| == |img.stats| && 0 <= j < |img.stats|
    requires BadWord(T, img.stats[j].words)
    ensures BadUnit(img, P, L, T, StatU(j))
  {
    hide DutyFrom, Applied;
    Shapes(img, j);
    var ws := img.stats[j].words;
    var x :| 0 <= x < |ws| && Applied(T, DutyFrom(ws, 0, x), ws[x]).None?;
    assert UnitWord(img, P, L, T, StatU(j), 0, OBJECT + x).None?;
  }

  /** The area of a generation. */
  method FixRegion(ld: Loader, gen: int, ghost img: Image, ghost P: Places, ghost L: Lists, ghost i: int)
    returns (ok: bool)
    requires ListsOk(img, L) && ScansOk(img) && 0 <= i < |img.gens| && gen == P.gen(i)
    requires FixedSoFar(img, P, L, ld.T, ld.mem, i, true, L.first[i + 1])
    requires Num(Get(ld.mem, gen + START)) == P.start(i)
    requires Num(Get(ld.mem, gen + TOP)) == P.start(i) + |img.gens[i].words|
    modifies ld`mem
    ensures if ok then FixedSoFar(img, P, L, ld.T, ld.mem, i + 1, false, L.first[i + 1])
            else BadUnit(img, P, L, ld.T, RegionU(i))
  {
    hide FixedSoFar, FixedUnit, TablesOk, TablesFor, PlacesOk, BadUnit, HasWords, ScannedTo, BadWord, ScansOk, ScanFits,
      ListsOk;
    ListsKnown(img, L);
    ghost var u, T, mem0, ws, j := RegionU(i), ld.T, ld.mem, img.gens[i].words, L.first[i + 1];
    TablesHere(img, P, L, T, mem0, i, true, j);
    RawWords(img, P, L, T, mem0, i, true, j, u);
    RegionKnown(img, P, mem0, i);
    ok := ld.Scan(Num(Get(ld.mem, gen + START)), Num(Get(ld.mem, gen + TOP)), ws);
    if ok {
      RegionFixed(img, P, L, T, ld.mem, i);
      OneFixed(img, P, L, T, mem0, ld.mem, u, i, true, j, i + 1, false, j);
    } else {
      RegionBad(img, P, L, T, i);
    }
  }

  lemma RegionKnown(img: Image, P: Places, mem: map<int, Word>, i: int)
    requires ScansOk(img) && PlacesOk(img, P) && 0 <= i < |img.gens| && HasWords(mem, P.start(i), img.gens[i].words)
    ensures ScanFits(img.gens[i].words, 0) && P.start(i) % 2 == 0
    ensures Slice(mem, P.start(i), |img.gens[i].words|) == img.gens[i].words
  {
  }

  lemma RegionFixed(img: Image, P: Places, L: Lists, T: Tables, mem: map<int, Word>, i: int)
    requires ShapesOk(img) && TablesOk(T) && |L.owner| == |img.stats| && 0 <= i < |img.gens|
    requires var ws := img.gens[i].words; ScannedTo(T, mem, P.start(i), ws, |ws|)
    ensures FixedUnit(img, P, L, T, mem, RegionU(i), 0)
  {
    hide DutyFrom, Applied;
    var u, ws := RegionU(i), img.gens[i].words;
    forall x {:trigger WordFixed(img, P, L, T, mem, u, 0, x)} | 0 <= x < |ws|
      ensures WordFixed(img, P, L, T, mem, u, 0, x)
    {
      assert WordScanned(T, mem, P.start(i), ws, |ws|, x);
    }
  }

  lemma RegionBad(img: Image, P: Places, L: Lists, T: Tables, i: int)
    requires ShapesOk(img) && TablesOk(T) && |L.owner| == |img.stats| && 0 <= i < |img.gens|
    requires BadWord(T, img.gens[i].words)
    ensures BadUnit(img, P, L, T, RegionU(i))
  {
    hide DutyFrom, Applied;
    var ws := img.gens[i].words;
    var x :| 0 <= x < |ws| && Applied(T, DutyFrom(ws, 0, x), ws[x]).None?;
    assert UnitWord(img, P, L, T, RegionU(i), 0, x).None?;
  }

  /** The nodes of a list are told from its end. */
  lemma NodeOrEnd(img: Image, P: Places, L: Lists, i: int, j: int)
    requires PlacesOk(img, P) && ListsOk(img, L) && 0 <= i < |img.gens| && L.first[i] <= j <= L.first[i + 1]
    ensures 0 <= j <= |img.stats| && (NewNode(img, P, L, i, j) == P.gen(i) + STATICS <==> j == L.first[i + 1])
    ensures j < L.first[i + 1] ==> j < |img.stats| && L.owner[j] == i && NewNode(img, P, L, i, j) == P.stat(j)
  {
    assert HeadAt(img, L, i);
    if j < L.first[i + 1] {
      assert InList(L, i, j) && UnitsApart(img, P, DescU(i), StatU(j));
    }
  }

  /** The words of a descriptor after it has been fixed. */
  lemma DescNow(img: Image, P: Places, L: Lists, T: Tables, mem: map<int, Word>, i: int, k: int)
    requires TablesFor(img, P, T) && OldApart(img) && ListsOk(img, L) && 0 <= i < |img.gens|
    requires FixedUnit(img, P, L, T, mem, DescU(i), k)
    ensures Num(Get(mem, P.gen(i) + STATICS)) == NewNode(img, P, L, i, L.first[i])
    ensures Num(Get(mem, P.gen(i) + START)) == P.start(i)
    ensures Num(Get(mem, P.gen(i) + TOP)) == P.start(i) + |img.gens[i].words|
    ensures Num(Get(mem, P.gen(i) + PARENT)) == if i + 1 < |img.gens| then P.gen(i + 1) else 0
    ensures |img.gens[i].desc| == DESCRIPTOR && Get(mem, P.gen(i) + NR_ENTRIES) == img.gens[i].desc[NR_ENTRIES]
    ensures k <= i ==> Get(mem, P.gen(i) + LAST + BACK) == img.gens[i].desc[LAST + BACK]
    ensures var b := img.gens[i].desc[ENTRY + BACK];
            FixLink(T, Num(b)).Some? && Get(mem, P.gen(i) + ENTRY + BACK) == Imm(FixLink(T, Num(b)).value)
  {
    hide FixLink, FixStaticLink, TablesFor, OldApart, ListsOk;
    ListsKnown(img, L);
    HeadMoved(img, P, L, T, i);
    var u, r, d := DescU(i), RawUnit(img, P, DescU(i), |img.gens|), img.gens[i].desc;
    Shapes(img, i);
    TablesIn(img, P, T);
    assert forall x :: ENTRY <= x < DESCRIPTOR ==> r[x] == d[x];
    assert WordFixed(img, P, L, T, mem, u, k, STATICS) && WordFixed(img, P, L, T, mem, u, k, START) &&
           WordFixed(img, P, L, T, mem, u, k, TOP);
    assert WordFixed(img, P, L, T, mem, u, k, PARENT) && WordFixed(img, P, L, T, mem, u, k, NR_ENTRIES) &&
           WordFixed(img, P, L, T, mem, u, k, LAST + BACK);
    assert WordFixed(img, P, L, T, mem, u, k, ENTRY + BACK);
  }

  lemma StatNow(img: Image, P: Places, L: Lists, T: Tables, mem: map<int, Word>, j: int)
    requires TablesFor(img, P, T) && OldApart(img) && ListsOk(img, L) && 0 <= j < |img.stats|
    requires FixedUnit(img, P, L, T, mem, StatU(j), 0)
    ensures Num(Get(mem, P.stat(j))) == NewNode(img, P, L, L.owner[j], j + 1)
  {
    hide FixLink, FixStaticLink, TablesFor, OldApart, ListsOk;
    ListsKnown(img, L);
    LinksMoved(img, P, L, T, j);
    TablesIn(img, P, T);
    assert RawUnit(img, P, StatU(j), |img.gens|)[0] == img.stats[j].desc[0];
    assert WordFixed(img, P, L, T, mem, StatU(j), 0, 0);
  }

  /** The static objects of a generation, along its list. */
  method FixList(ld: Loader, gen: int, ghost img: Image, ghost P: Places, ghost L: Lists, ghost i: int)
    returns (ok: bool, ghost bad: Unit)
    requires ListsOk(img, L) && OldApart(img) && ScansOk(img) && 0 <= i < |img.gens| && gen == P.gen(i)
    requires FixedSoFar(img, P, L, ld.T, ld.mem, i, true, L.first[i])
    modifies ld`mem
    ensures if ok then FixedSoFar(img, P, L, ld.T, ld.mem, i, true, L.first[i + 1]) else BadUnit(img, P, L, ld.T, bad)
  {
    hide FixedSoFar, FixedUnit, TablesOk, OldApart, TablesFor, PlacesOk, BadUnit, ScansOk, ListsOk, NewNode;
    ListsKnown(img, L);
    TablesHere(img, P, L, ld.T, ld.mem, i, true, L.first[i]);
    FixedWords(img, P, L, ld.T, ld.mem, i, true, L.first[i], DescU(i));
    DescNow(img, P, L, ld.T, ld.mem, i, 0);
    ListBounds(img, L, i);
    ok, bad := true, DescU(i);
    var stat := Num(Get(ld.mem, gen + STATICS));
    ghost var j := L.first[i];
    NodeOrEnd(img, P, L, i, j);
    while stat != gen + STATICS
      invariant L.first[i] <= j <= L.first[i + 1] && stat == NewNode(img, P, L, i, j)
      invariant stat == gen + STATICS <==> j == L.first[i + 1]
      invariant FixedSoFar(img, P, L, ld.T, ld.mem, i, true, j)
      decreases L.first[i + 1] - j
    {
      NodeOrEnd(img, P, L, i, j);
      ok := FixStatObject(ld, stat, gen, img, P, L, i, j);
      if !ok {
        bad := StatU(j);
        return;
      }
      FixedWords(img, P, L, ld.T, ld.mem, i, true, j + 1, StatU(j));
      StatNow(img, P, L, ld.T, ld.mem, j);
      stat := Num(Get(ld.mem, stat));
      j := j + 1;
      NodeOrEnd(img, P, L, i, j);
    }
  }

  lemma ListBounds(img: Image, L: Lists, i: int)
    requires ListsOk(img, L) && 0 <= i < |img.gens|
    ensures 0 <= L.first[i] <= L.first[i + 1] <= |img.stats|
  {
    assert HeadAt(img, L, i);
  }

  ghost function GenOrNull(img: Image, P: Places, i: int): int {
    if 0 <= i < |img.gens| then P.gen(i) else 0
  }

  /** All generations, from the creation space on. */
  method FixGens(ld: Loader, creation: int, ghost img: Image, ghost P: Places, ghost L: Lists)
    returns (ok: bool, ghost bad: Unit)
    requires ListsOk(img, L) && OldApart(img) && ScansOk(img) && creation == GenOrNull(img, P, 0)
    requires FixedSoFar(img, P, L, ld.T, ld.mem, 0, false, 0)
    modifies ld`mem
    ensures if ok then FixedSoFar(img, P, L, ld.T, ld.mem, |img.gens|, false, |img.stats|)
            else BadUnit(img, P, L, ld.T, bad)
  {
    hide FixedSoFar, FixedUnit, TablesOk, OldApart, TablesFor, PlacesOk, BadUnit, ScansOk, ListsOk, NewNode;
    ListsKnown(img, L);
    ok, bad := true, DescU(0);
    var gen := creation;
    ghost var i := 0;
    TablesHere(img, P, L, ld.T, ld.mem, 0, false, 0);
    ChainEnd(img, P, 0);
    while gen != 0
      invariant 0 <= i <= |img.gens| && gen == GenOrNull(img, P, i) && (gen == 0 <==> i == |img.gens|)
      invariant FixedSoFar(img, P, L, ld.T, ld.mem, i, false, L.first[i])
      decreases |img.gens| - i
    {
      TablesHere(img, P, L, ld.T, ld.mem, i, false, L.first[i]);
      ok := FixDescriptor(ld, gen, img, P, L, i);
      if !ok {
        bad := DescU(i);
        return;
      }
      ok, bad := FixList(ld, gen, img, P, L, i);
      if !ok {
        return;
      }
      FixedWords(img, P, L, ld.T, ld.mem, i, true, L.first[i + 1], DescU(i));
      DescNow(img, P, L, ld.T, ld.mem, i, 0);
      ok := FixRegion(ld, gen, img, P, L, i);
      if !ok {
        bad := RegionU(i);
        return;
      }
      FixedWords(img, P, L, ld.T, ld.mem, i + 1, false, L.first[i + 1], DescU(i));
      DescNow(img, P, L, ld.T, ld.mem, i, 0);
      gen := Num(Get(ld.mem, gen + PARENT));
      i := i + 1;
      ChainEnd(img, P, i);
    }
  }

  lemma ChainEnd(img: Image, P: Places, i: int)
    requires PlacesOk(img, P) && 0 <= i <= |img.gens|
    ensures GenOrNull(img, P, i) == 0 <==> i == |img.gens|
  {
  }

  // ---- The ends of the entry lists ----

  /** The last link of a generation, fixed; the other two words that are written have their values already. */
  method FixLast(ld: Loader, gen: int, ghost img: Image, ghost P: Places, ghost L: Lists, ghost i: int)
    requires AllFixed(img, P, L, ld.T, ld.mem, i) && PlacesOk(img, P) && ListsOk(img, L) && OldApart(img)
    requires SpacesOk(img) && LastOk(img, P, L)
    requires 0 <= i < |img.gens| && gen == P.gen(i)
    modifies ld`mem
    ensures AllFixed(img, P, L, ld.T, ld.mem, i + 1)
  {
    hide AllFixed, PlacesOk, ListsOk, OldApart, SpacesOk, LastOk, FixLink, TablesOk, TablesFor, FixedUnit;
    ghost var mem0, T := ld.mem, ld.T;
    AllKnown(img, P, L, T, mem0, i);
    DescNow(img, P, L, T, mem0, i, i);
    if Num(Get(ld.mem, gen + NR_ENTRIES)) != 0 {
      LastKnown(img, P, L, T, mem0, i);
      var ok := ld.FixEntry(gen + LAST + BACK);
      ghost var mem1 := ld.mem;
      var arr := Num(Get(ld.mem, gen + LAST + BACK));
      ld.mem := ld.mem[arr + FORWARD := Imm(gen + ENTRY)];
      ld.mem := ld.mem[gen + ENTRY + BACK := Imm(arr)];
      LastFixed(img, P, L, T, mem0, ld.mem, i, arr);
    } else {
      NoLast(img, P, L, T, mem0, i);
    }
  }

  lemma AllKnown(img: Image, P: Places, L: Lists, T: Tables, mem: map<int, Word>, k: int)
    requires AllFixed(img, P, L, T, mem, k)
    ensures TablesFor(img, P, T) && TablesOk(T) && ShapesOk(img) && |L.owner| == |img.stats|
    ensures forall u {:trigger FixedUnit(img, P, L, T, mem, u, k)} :: IsUnit(img, u) ==>
            FixedUnit(img, P, L, T, mem, u, k)
  {
  }

  /** The last entry is where the end of the entry list is, and links forward to its head. */
  lemma LastKnown(img: Image, P: Places, L: Lists, T: Tables, mem: map<int, Word>, i: int)
    requires AllFixed(img, P, L, T, mem, i) && OldApart(img) && SpacesOk(img) && LastOk(img, P, L)
    requires 0 <= i < |img.gens| && |img.gens[i].desc| == DESCRIPTOR
    requires Num(img.gens[i].desc[NR_ENTRIES]) != 0 && PlacesOk(img, P)
    ensures TablesOk(T) && img.gens[i].desc[LAST + BACK] == img.gens[i].desc[ENTRY + BACK]
    ensures var r := FixLink(T, Num(img.gens[i].desc[ENTRY + BACK]));
            r.Some? && Get(mem, r.value + FORWARD) == Imm(P.gen(i) + ENTRY) &&
            r.value + FORWARD != P.gen(i) + LAST + BACK
  {
    hide AllFixed, OldApart, SpacesOk, FixLink, TablesOk, TablesFor, UnitDuty, PlacesOk;
    AllKnown(img, P, L, T, mem, i);
    assert LastAt(img, P, L, i);
    var v, x :| EndsAt(img, P, L, i, v, x);
    HeaderMoved(img, P, L, T, v, x);
    DescHeader(img, P, L, i);
    LinkPreserved(img, P, L, T, mem, i, v, x, FORWARD, DescU(i), ENTRY);
    HeaderElsewhere(img, P, L, v, x, i);
  }

  lemma HeaderElsewhere(img: Image, P: Places, L: Lists, v: Unit, x: int, i: int)
    requires ShapesOk(img) && |L.owner| == |img.stats| && HeaderIn(img, P, L, v, x) && PlacesOk(img, P)
    requires 0 <= i < |img.gens|
    ensures NewAt(P, v) + x + FORWARD != P.gen(i) + LAST + BACK
  {
    hide UnitDuty;
    assert UnitsApart(img, P, DescU(i), v);
  }

  lemma DescHeader(img: Image, P: Places, L: Lists, i: int)
    requires ShapesOk(img) && |L.owner| == |img.stats| && 0 <= i < |img.gens|
    ensures HeaderIn(img, P, L, DescU(i), ENTRY)
  {
  }

  /** Nothing but the last link of generation `i` has changed. */
  lemma LastFixed(img: Image, P: Places, L: Lists, T: Tables, mem: map<int, Word>, mem1: map<int, Word>, i: int,
                  arr: int)
    requires AllFixed(img, P, L, T, mem, i) && PlacesOk(img, P) && 0 <= i < |img.gens|
    requires |img.gens[i].desc| == DESCRIPTOR && TablesOk(T)
    requires var d := img.gens[i].desc;
             Num(d[NR_ENTRIES]) != 0 && d[LAST + BACK] == d[ENTRY + BACK] &&
             FixLink(T, Num(d[ENTRY + BACK])) == Some(arr)
    requires Get(mem, arr + FORWARD) == Imm(P.gen(i) + ENTRY) && Get(mem, P.gen(i) + ENTRY + BACK) == Imm(arr)
    requires mem1 == mem[P.gen(i) + LAST + BACK := Imm(arr)][arr + FORWARD := Imm(P.gen(i) + ENTRY)]
                       [P.gen(i) + ENTRY + BACK := Imm(arr)]
    requires arr + FORWARD != P.gen(i) + LAST + BACK
    ensures AllFixed(img, P, L, T, mem1, i + 1)
  {
    hide FixLink, PlacesOk, TablesFor, AllFixed;
    AllKnown(img, P, L, T, mem, i);
    var g := P.gen(i);
    assert forall a :: a != g + LAST + BACK ==> Get(mem1, a) == Get(mem, a);
    forall u {:trigger FixedUnit(img, P, L, T, mem1, u, i + 1)} | IsUnit(img, u)
      ensures FixedUnit(img, P, L, T, mem1, u, i + 1)
    {
      if u == DescU(i) {
        DescLast(img, P, L, T, mem, mem1, i, arr);
      } else {
        NotLast(img, P, L, T, mem, mem1, i, u);
      }
    }
    assert forall u {:trigger FixedUnit(img, P, L, T, mem1, u, i + 1)} :: IsUnit(img, u) ==>
           FixedUnit(img, P, L, T, mem1, u, i + 1);
    Whole(img, P, L, T, mem1, i + 1);
  }

  lemma Whole(img: Image, P: Places, L: Lists, T: Tables, mem: map<int, Word>, k: int)
    requires TablesFor(img, P, T) && |L.owner| == |img.stats|
    requires forall u {:trigger FixedUnit(img, P, L, T, mem, u, k)} :: IsUnit(img, u) ==>
             FixedUnit(img, P, L, T, mem, u, k)
    ensures AllFixed(img, P, L, T, mem, k)
  {
  }

  lemma DescLast(img: Image, P: Places, L: Lists, T: Tables, mem: map<int, Word>, mem1: map<int, Word>, i: int,
                 arr: int)
    requires ShapesOk(img) && TablesOk(T) && |L.owner| == |img.stats| && 0 <= i < |img.gens|
    requires FixedUnit(img, P, L, T, mem, DescU(i), i) && |img.gens[i].desc| == DESCRIPTOR
    requires var d := img.gens[i].desc;
             Num(d[NR_ENTRIES]) != 0 && d[LAST + BACK] == d[ENTRY + BACK] &&
             FixLink(T, Num(d[ENTRY + BACK])) == Some(arr)
    requires Get(mem1, P.gen(i) + LAST + BACK) == Imm(arr)
    requires forall a :: a != P.gen(i) + LAST + BACK ==> Get(mem1, a) == Get(mem, a)
    ensures FixedUnit(img, P, L, T, mem1, DescU(i), i + 1)
  {
    hide FixLink, FixStaticLink;
    Shapes(img, i);
    var u, r := DescU(i), RawUnit(img, P, DescU(i), |img.gens|);
    assert forall x :: ENTRY <= x < DESCRIPTOR ==> r[x] == img.gens[i].desc[x];
    forall x {:trigger WordFixed(img, P, L, T, mem1, u, i + 1, x)} | 0 <= x < DESCRIPTOR
      ensures WordFixed(img, P, L, T, mem1, u, i + 1, x)
    {
      assert WordFixed(img, P, L, T, mem, u, i, x);
    }
  }

  lemma NotLast(img: Image, P: Places, L: Lists, T: Tables, mem: map<int, Word>, mem1: map<int, Word>, i: int, u: Unit)
    requires PlacesOk(img, P) && ShapesOk(img) && TablesOk(T) && |L.owner| == |img.stats| && 0 <= i < |img.gens|
    requires IsUnit(img, u) && u != DescU(i)
    requires FixedUnit(img, P, L, T, mem, u, i)
    requires forall a :: a != P.gen(i) + LAST + BACK ==> Get(mem1, a) == Get(mem, a)
    ensures FixedUnit(img, P, L, T, mem1, u, i + 1)
  {
    hide RawUnit;
    assert UnitsApart(img, P, DescU(i), u);
    forall x {:trigger WordFixed(img, P, L, T, mem1, u, i + 1, x)} | 0 <= x < UnitLen(img, u)
      ensures WordFixed(img, P, L, T, mem1, u, i + 1, x)
    {
      assert WordFixed(img, P, L, T, mem, u, i, x);
    }
  }

  /** Without entries there is no last link. */
  lemma NoLast(img: Image, P: Places, L: Lists, T: Tables, mem: map<int, Word>, i: int)
    requires AllFixed(img, P, L, T, mem, i) && 0 <= i < |img.gens| && |img.gens[i].desc| == DESCRIPTOR
    requires Num(img.gens[i].desc[NR_ENTRIES]) == 0
    ensures AllFixed(img, P, L, T, mem, i + 1)
  {
    hide RawUnit, Applied;
    forall u {:trigger FixedUnit(img, P, L, T, mem, u, i + 1)} | IsUnit(img, u)
      ensures FixedUnit(img, P, L, T, mem, u, i + 1)
    {
      assert FixedUnit(img, P, L, T, mem, u, i);
      forall x {:trigger WordFixed(img, P, L, T, mem, u, i + 1, x)} | 0 <= x < UnitLen(img, u)
        ensures WordFixed(img, P, L, T, mem, u, i + 1, x)
      {
        assert WordFixed(img, P, L, T, mem, u, i, x);
      }
    }
  }

  /** The ends of all entry lists. */
  method FixLasts(ld: Loader, creation: int, ghost img: Image, ghost P: Places, ghost L: Lists)
    requires AllFixed(img, P, L, ld.T, ld.mem, 0) && PlacesOk(img, P) && ListsOk(img, L) && OldApart(img)
    requires SpacesOk(img) && LastOk(img, P, L)
    requires creation == GenOrNull(img, P, 0)
    modifies ld`mem
    ensures AllFixed(img, P, L, ld.T, ld.mem, |img.gens|)
  {
    hide AllFixed, PlacesOk, ListsOk, OldApart, SpacesOk, LastOk, TablesOk, TablesFor;
    var gen := creation;
    ghost var i := 0;
    ChainEnd(img, P, 0);
    while gen != 0
      invariant 0 <= i <= |img.gens| && gen == GenOrNull(img, P, i) && (gen == 0 <==> i == |img.gens|)
      invariant AllFixed(img, P, L, ld.T, ld.mem, i)
      decreases |img.gens| - i
    {
      FixLast(ld, gen, img, P, L, i);
      i := i + 1;
      AllKnown(img, P, L, ld.T, ld.mem, i);
      DescNow(img, P, L, ld.T, ld.mem, i - 1, i);
      gen := Num(Get(ld.mem, gen + PARENT));
      ChainEnd(img, P, i);
    }
  }

  // ---- Putting the parts in their places ----

  /** `n` generations and `m` static objects are in their places. */
  ghost predicate Placed(img: Image, P: Places, mem: map<int, Word>, n: int, m: int) {
    ShapesOk(img) && PlacesOk(img, P) && forall u {:trigger InPlace(img, P, mem, u, n)} ::
      IsUnit(img, u) && Early(u, n, m) ==> InPlace(img, P, mem, u, n)
  }

  ghost predicate Early(u: Unit, n: int, m: int) {
    match u
    case DescU(i) => i < n
    case RegionU(i) => i < n
    case StatU(j) => j < m
  }

  ghost predicate InPlace(img: Image, P: Places, mem: map<int, Word>, u: Unit, n: int)
    requires ShapesOk(img) && IsUnit(img, u)
  {
    HasWords(mem, NewAt(P, u), RawUnit(img, P, u, n))
  }

  /** Writes words to memory. */
  method Store(ld: Loader, at: int, ws: seq<Word>)
    modifies ld`mem
    ensures HasWords(ld.mem, at, ws) && SameOutside(old(ld.mem), ld.mem, at, |ws|)
  {
    var i := 0;
    while i < |ws|
      invariant 0 <= i <= |ws| && (forall x :: 0 <= x < i ==> Get(ld.mem, at + x) == ws[x])
      invariant SameOutside(old(ld.mem), ld.mem, at, |ws|)
    {
      ld.mem := ld.mem[at + i := ws[i]];
      i := i + 1;
    }
  }

  /** A generation: its descriptor, its contents, its neighbour, and the entries in the conversion tables. */
  method PlaceGen(ld: Loader, g: GenImage, i: int, P: Places, ghost img: Image)
    requires ShapesOk(img) && 0 <= i < |img.gens| && g == img.gens[i] && |g.desc| == DESCRIPTOR
    requires Placed(img, P, ld.mem, i, 0)
    modifies ld`mem
    ensures Placed(img, P, ld.mem, i + 1, 0)
  {
    hide ShapesOk, PlacesOk, Placed, RawUnit, HasWords, NewDesc;
    ghost var mem0 := ld.mem;
    Store(ld, P.gen(i), NewDesc(g, P, i, i + 1));
    ghost var mem1 := ld.mem;
    Store(ld, P.start(i), g.words);
    ghost var mem2 := ld.mem;
    if i > 0 {
      ld.mem := ld.mem[P.gen(i - 1) + PARENT := Imm(P.gen(i))];
    }
    GenPlaced(img, P, mem0, mem1, mem2, ld.mem, i);
  }

  lemma GenPlaced(img: Image, P: Places, mem: map<int, Word>, mem1: map<int, Word>, mem2: map<int, Word>,
                  mem3: map<int, Word>, i: int)
    requires Placed(img, P, mem, i, 0) && 0 <= i < |img.gens| && |img.gens[i].desc| == DESCRIPTOR
    requires HasWords(mem1, P.gen(i), NewDesc(img.gens[i], P, i, i + 1)) && SameOutside(mem, mem1, P.gen(i), DESCRIPTOR)
    requires HasWords(mem2, P.start(i), img.gens[i].words) && SameOutside(mem1, mem2, P.start(i), |img.gens[i].words|)
    requires mem3 == if i > 0 then mem2[P.gen(i - 1) + PARENT := Imm(P.gen(i))] else mem2
    ensures Placed(img, P, mem3, i + 1, 0)
  {
    hide NewDesc, ShapesOk, PlacesOk, HasWords;
    forall u {:trigger InPlace(img, P, mem3, u, i + 1)} | IsUnit(img, u) && Early(u, i + 1, 0)
      ensures InPlace(img, P, mem3, u, i + 1)
    {
      if u == DescU(i) || u == RegionU(i) {
        NewPlaced(img, P, mem1, mem2, mem3, i, u);
      } else {
        assert InPlace(img, P, mem, u, i);
        OldPlaced(img, P, mem, mem1, mem2, mem3, i, u);
      }
    }
  }

  lemma NewPlaced(img: Image, P: Places, mem1: map<int, Word>, mem2: map<int, Word>, mem3: map<int, Word>, i: int,
                  u: Unit)
    requires ShapesOk(img) && PlacesOk(img, P) && 0 <= i < |img.gens| && |img.gens[i].desc| == DESCRIPTOR
    requires u == DescU(i) || u == RegionU(i)
    requires HasWords(mem1, P.gen(i), NewDesc(img.gens[i], P, i, i + 1))
    requires HasWords(mem2, P.start(i), img.gens[i].words) && SameOutside(mem1, mem2, P.start(i), |img.gens[i].words|)
    requires mem3 == if i > 0 then mem2[P.gen(i - 1) + PARENT := Imm(P.gen(i))] else mem2
    ensures InPlace(img, P, mem3, u, i + 1)
  {
    hide NewDesc, ShapesOk;
    assert UnitsApart(img, P, DescU(i), RegionU(i));
    if i > 0 {
      assert UnitsApart(img, P, DescU(i - 1), u);
    }
  }

  lemma ApartFromThree(img: Image, P: Places, i: int, u: Unit)
    requires PlacesOk(img, P) && 0 <= i < |img.gens| && IsUnit(img, u)
    ensures UnitsApart(img, P, DescU(i), u) && UnitsApart(img, P, RegionU(i), u)
    ensures i > 0 ==> UnitsApart(img, P, DescU(i - 1), u)
  {
  }

  lemma OldPlaced(img: Image, P: Places, mem: map<int, Word>, mem1: map<int, Word>, mem2: map<int, Word>,
                  mem3: map<int, Word>, i: int, u: Unit)
    requires ShapesOk(img) && PlacesOk(img, P) && 0 <= i < |img.gens| && |img.gens[i].desc| == DESCRIPTOR
    requires IsUnit(img, u) && Early(u, i, 0) && InPlace(img, P, mem, u, i)
    requires SameOutside(mem, mem1, P.gen(i), DESCRIPTOR) && SameOutside(mem1, mem2, P.start(i), |img.gens[i].words|)
    requires mem3 == if i > 0 then mem2[P.gen(i - 1) + PARENT := Imm(P.gen(i))] else mem2
    ensures InPlace(img, P, mem3, u, i + 1)
  {
    hide ShapesOk, PlacesOk;
    ApartFromThree(img, P, i, u);
    var a, r, r1 := NewAt(P, u), RawUnit(img, P, u, i), RawUnit(img, P, u, i + 1);
    forall x | 0 <= x < |r1| ensures Get(mem3, a + x) == r1[x] {
      assert Get(mem, a + x) == r[x] && Get(mem2, a + x) == Get(mem, a + x);
      assert x != PARENT || u != DescU(i - 1) ==> r1[x] == r[x];
    }
  }

  /** A static object, with the links it had. */
  method PlaceStat(ld: Loader, s: StatImage, j: int, P: Places, ghost img: Image)
    requires ShapesOk(img) && 0 <= j < |img.stats| && s == img.stats[j] && |s.desc| == STATIC_DESCRIPTOR
    requires Placed(img, P, ld.mem, |img.gens|, j)
    modifies ld`mem
    ensures Placed(img, P, ld.mem, |img.gens|, j + 1)
  {
    hide ShapesOk, PlacesOk, HasWords;
    ghost var mem0 := ld.mem;
    Store(ld, P.stat(j), NewStat(s));
    forall u {:trigger InPlace(img, P, ld.mem, u, |img.gens|)} | IsUnit(img, u) && Early(u, |img.gens|, j + 1)
      ensures InPlace(img, P, ld.mem, u, |img.gens|)
    {
      if u != StatU(j) {
        assert InPlace(img, P, mem0, u, |img.gens|);
        OtherPlaced(img, P, mem0, ld.mem, j, u);
      }
    }
  }

  lemma OtherPlaced(img: Image, P: Places, mem: map<int, Word>, mem1: map<int, Word>, j: int, u: Unit)
    requires ShapesOk(img) && PlacesOk(img, P) && 0 <= j < |img.stats| && IsUnit(img, u) && u != StatU(j)
    requires InPlace(img, P, mem, u, |img.gens|)
    requires SameOutside(mem, mem1, P.stat(j), OBJECT + |img.stats[j].words|)
    ensures InPlace(img, P, mem1, u, |img.gens|)
  {
    hide ShapesOk, RawUnit;
    assert UnitsApart(img, P, StatU(j), u);
  }

  // ---- The conversion tables ----

  /** The tables for the first `n` generations and the first `m` static objects. */
  ghost predicate TablesUpTo(img: Image, P: Places, T: Tables, n: int, m: int) {
    && ShapesOk(img) && 0 <= n <= |img.gens| && 0 <= m <= |img.stats| && TablesOk(T) && |T.oldGen| == n
    && |T.oldStat| == m
    && (forall i :: 0 <= i < n ==> T.oldGen[i] == img.gens[i].at && T.newGen[i] == P.gen(i))
    && (forall j :: 0 <= j < m ==>
          T.oldStat[j] == img.stats[j].at && T.newStat[j] == P.stat(j) && T.sizes[j] == |img.stats[j].words|)
    && (forall i {:trigger BaseOf(img, P, T, i)} :: 0 <= i < n ==> BaseOf(img, P, T, i))
    && (forall s {:trigger SpaceUsed(img, s)} :: s in T.oldBase ==> SpaceUsed(img, s))
  }

  function MoreTables(T: Tables, g: GenImage, P: Places, i: int): Tables
    requires |g.desc| == DESCRIPTOR
  {
    T.(oldGen := T.oldGen + [g.at], newGen := T.newGen + [P.gen(i)],
       oldBase := T.oldBase[Num(g.desc[SPACE]) := Num(g.desc[START])], newBase :=
         T.newBase[Num(g.desc[SPACE]) := P.start(i)])
  }

  lemma TablesGen(img: Image, P: Places, T: Tables, i: int)
    requires TablesUpTo(img, P, T, i, 0) && SpacesOk(img) && 0 <= i < |img.gens| && |img.gens[i].desc| == DESCRIPTOR
    ensures TablesUpTo(img, P, MoreTables(T, img.gens[i], P, i), i + 1, 0)
  {
    var T1 := MoreTables(T, img.gens[i], P, i);
    forall k {:trigger BaseOf(img, P, T1, k)} | 0 <= k < i + 1 ensures BaseOf(img, P, T1, k) {
      Shapes(img, k);
      if k < i {
        assert BaseOf(img, P, T, k) && OwnSpaces(img, k, i);
      }
    }
    assert SpaceUsed(img, Num(img.gens[i].desc[SPACE]));
  }

  lemma TablesStat(img: Image, P: Places, T: Tables, j: int)
    requires TablesUpTo(img, P, T, |img.gens|, j) && 0 <= j < |img.stats|
    ensures var s := img.stats[j];
            TablesUpTo(img, P, T.(oldStat := T.oldStat + [s.at], newStat := T.newStat + [P.stat(j)],
            sizes := T.sizes + [|s.words|]), |img.gens|, j + 1)
  {
    var s := img.stats[j];
    var T1 := T.(oldStat := T.oldStat + [s.at], newStat := T.newStat + [P.stat(j)], sizes := T.sizes + [|s.words|]);
    forall k {:trigger BaseOf(img, P, T1, k)} | 0 <= k < |img.gens| ensures BaseOf(img, P, T1, k) {
      assert BaseOf(img, P, T, k);
    }
  }

  /** Puts all parts in their places, and fills the conversion tables. */
  method PlaceAll(ld: Loader, img: Image, P: Places)
    requires ShapesOk(img) && PlacesOk(img, P) && SpacesOk(img)
    modifies ld
    ensures Placed(img, P, ld.mem, |img.gens|, |img.stats|) && TablesUpTo(img, P, ld.T, |img.gens|, |img.stats|)
  {
    hide ShapesOk, PlacesOk, SpacesOk, Placed, TablesUpTo, MoreTables;
    ld.T := Tables([], [], [], [], [], map[], map[]);
    Nothing(img, P, ld.mem);
    var i := 0;
    while i < |img.gens|
      invariant 0 <= i <= |img.gens| && Placed(img, P, ld.mem, i, 0) && TablesUpTo(img, P, ld.T, i, 0)
    {
      Shapes(img, i);
      PlaceGen(ld, img.gens[i], i, P, img);
      TablesGen(img, P, ld.T, i);
      ld.T := MoreTables(ld.T, img.gens[i], P, i);
      i := i + 1;
    }
    var j := 0;
    while j < |img.stats|
      invariant 0 <= j <= |img.stats| && Placed(img, P, ld.mem, |img.gens|, j)
      invariant TablesUpTo(img, P, ld.T, |img.gens|, j)
    {
      Shapes(img, j);
      PlaceStat(ld, img.stats[j], j, P, img);
      TablesStat(img, P, ld.T, j);
      ld.T := ld.T.(oldStat := ld.T.oldStat + [img.stats[j].at], newStat := ld.T.newStat + [P.stat(j)], sizes :=
        ld.T.sizes + [|img.stats[j].words|]);
      j := j + 1;
    }
  }

  lemma Nothing(img: Image, P: Places, mem: map<int, Word>)
    requires ShapesOk(img) && PlacesOk(img, P)
    ensures Placed(img, P, mem, 0, 0) && TablesUpTo(img, P, Tables([], [], [], [], [], map[], map[]), 0, 0)
  {
  }

  lemma AllPlaced(img: Image, P: Places, L: Lists, T: Tables, mem: map<int, Word>)
    requires Placed(img, P, mem, |img.gens|, |img.stats|) && TablesUpTo(img, P, T, |img.gens|, |img.stats|)
    requires |L.owner| == |img.stats|
    ensures FixedSoFar(img, P, L, T, mem, 0, false, 0)
  {
    hide RawUnit, HasWords, FixedUnit;
    forall u {:trigger UnitState(img, P, L, T, mem, u, 0, false, 0)} | IsUnit(img, u)
      ensures UnitState(img, P, L, T, mem, u, 0, false, 0)
    {
      assert InPlace(img, P, mem, u, |img.gens|);
    }
  }

  lemma AllDoneNow(img: Image, P: Places, L: Lists, T: Tables, mem: map<int, Word>)
    requires FixedSoFar(img, P, L, T, mem, |img.gens|, false, |img.stats|)
    ensures AllFixed(img, P, L, T, mem, 0) && forall u :: !BadUnit(img, P, L, T, u)
  {
    hide RawUnit, HasWords, UnitDuty, Applied;
    forall u {:trigger FixedUnit(img, P, L, T, mem, u, 0)} | IsUnit(img, u) ensures FixedUnit(img, P, L, T, mem, u, 0) {
      assert UnitState(img, P, L, T, mem, u, |img.gens|, false, |img.stats|);
    }
    forall u ensures !BadUnit(img, P, L, T, u) {
      if IsUnit(img, u) {
        assert FixedUnit(img, P, L, T, mem, u, 0);
        forall x | 0 <= x < UnitLen(img, u) ensures UnitWord(img, P, L, T, u, 0, x).Some? {
          assert WordFixed(img, P, L, T, mem, u, 0, x);
        }
      }
    }
  }

  // ---- Loading ----

  datatype Loaded = Loaded(root: Word) | LoadFailed(error: Error)

  /** The image is of a heap that was in order, and the new places are. */
  ghost predicate Loadable(img: Image, P: Places, L: Lists) {
    ListsOk(img, L) && PlacesOk(img, P) && OldApart(img) && ScansOk(img) && SpacesOk(img) && LastOk(img, P, L)
  }

  lemma LoadableKnown(img: Image, P: Places, L: Lists)
    requires Loadable(img, P, L)
    ensures ListsOk(img, L) && PlacesOk(img, P) && OldApart(img) && ScansOk(img) && SpacesOk(img) && LastOk(img, P, L)
  {
  }

  /** `image_load_common`. It fails just if the stream is not an image, or if a link of an entry list leads to none of
      the space of a generation, a static object and a list head; otherwise all words are relocated as they are to
      be. */
  method Load(ld: Loader, s: seq<Word>, P: Places, ghost L: Lists) returns (r: Loaded)
    requires ParseImage(s).Parsed? ==> Loadable(ParseImage(s).value, P, L)
    modifies ld
    ensures ParseImage(s).Failed? ==> r == LoadFailed(ParseImage(s).error)
    ensures ParseImage(s).Parsed? ==>
            TablesFor(ParseImage(s).value, P, ld.T) && |L.owner| == |ParseImage(s).value.stats|
    ensures ParseImage(s).Parsed? ==>
            (r.Loaded? <==> LinksGo(ParseImage(s).value, P, L)) && (r.LoadFailed? ==> r.error == FormatError)
    ensures ParseImage(s).Parsed? && r.Loaded? ==>
            AllFixed(ParseImage(s).value, P, L, ld.T, ld.mem, |ParseImage(s).value.gens|) &&
            r.root == FixValue(ld.T, ParseImage(s).value.root) && AllDescribed(ParseImage(s).value, P, ld.mem)
  {
    hide ParseImage, ListsOk, PlacesOk, OldApart, ScansOk, SpacesOk, LastOk, AllFixed, FixedSoFar, Placed, TablesUpTo,
      TablesFor, TablesOk, BadUnit, LinksGo, Described;
    var image := ReadImage(s);
    if image.Failed? {
      return LoadFailed(image.error);
    }
    var img := image.value;
    ListsKnown(img, L);
    PlaceAll(ld, img, P);
    AllPlaced(img, P, L, ld.T, ld.mem);
    TablesHere(img, P, L, ld.T, ld.mem, 0, false, 0);
    BadIffLost(img, P, L, ld.T);
    var root := ld.Relocate(img.root);
    var creation := if |img.gens| > 0 then P.gen(0) else 0;
    var ok;
    ghost var bad;
    ok, bad := FixGens(ld, creation, img, P, L);
    if !ok {
      return LoadFailed(FormatError);
    }
    AllDoneNow(img, P, L, ld.T, ld.mem);
    FixLasts(ld, creation, img, P, L);
    DescriptorsKept(img, P, L, ld.T, ld.mem);
    r := Loaded(root);
  }
}
