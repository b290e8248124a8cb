/** Saving an image of the heap. */
module ImageSave {
  import opened Heap
  import opened Seqs
  import opened Words
  import opened Bits
  import opened ImageFormat

  /** The generations and their lists of static objects, as memory has them. */
  datatype Shape = Shape(gens: seq<int>, lists: seq<seq<int>>)

  /** The live words of a generation. */
  function Live(mem: map<int, Word>, g: int, i: int): int {
    Num(Get(mem, g + if i == 0 then TOP else IMAGE_TOP)) - Num(Get(mem, g + START))
  }

  ghost predicate GenAt(mem: map<int, Word>, S: Shape, i: int)
    requires 0 <= i < |S.gens| == |S.lists|
  {
    var g := S.gens[i];
    && g != 0 && (i > 0 ==> g != S.gens[0]) && Num(Get(mem, g + PARENT)) == Nth(S.gens, i + 1, 0)
    && Num(Get(mem, g + NUMBER)) == i && 0 <= Live(mem, g, i)
    && Num(Get(mem, g + NR_STATIC)) == |S.lists[i]| && Num(Get(mem, g + STATICS)) == Nth(S.lists[i], 0, g + STATICS)
  }

  ghost predicate StatAt(mem: map<int, Word>, S: Shape, i: int, j: int)
    requires 0 <= i < |S.gens| == |S.lists| && 0 <= j < |S.lists[i]|
  {
    S.lists[i][j] != S.gens[i] + STATICS && Num(Get(mem, S.lists[i][j])) == Nth(S.lists[i], j + 1, S.gens[i] + STATICS)
  }

  /** The chain of generations and the lists of static objects are in order. */
  ghost predicate ShapeOk(mem: map<int, Word>, S: Shape) {
    && |S.lists| == |S.gens|
    && (forall i {:trigger GenAt(mem, S, i)} :: 0 <= i < |S.gens| ==> GenAt(mem, S, i))
    && (forall i, j {:trigger StatAt(mem, S, i, j)} :: 0 <= i < |S.gens| && 0 <= j < |S.lists[i]| ==>
          StatAt(mem, S, i, j))
  }

  /** Pictures of the generations and static objects in memory. */
  function GenPicture(mem: map<int, Word>, g: int, i: int): GenImage {
    var n := Live(mem, g, i);
    GenImage(g, Slice(mem, g, DESCRIPTOR), Slice(mem, Num(Get(mem, g + START)), if n < 0 then 0 else n))
  }

  function StatPicture(mem: map<int, Word>, s: int): StatImage {
    StatImage(s, Slice(mem, s, STATIC_DESCRIPTOR), Slice(mem, s + OBJECT, Footprint(Get(mem, s + OBJECT))))
  }

  function GenPictures(mem: map<int, Word>, gens: seq<int>, n: nat): seq<GenImage>
    requires n <= |gens|
  {
    seq(n, i requires 0 <= i < n => GenPicture(mem, gens[i], i))
  }

  function ListPictures(mem: map<int, Word>, list: seq<int>, n: nat): seq<StatImage>
    requires n <= |list|
  {
    seq(n, j requires 0 <= j < n => StatPicture(mem, list[j]))
  }

  function StatPictures(mem: map<int, Word>, lists: seq<seq<int>>, n: nat): seq<StatImage>
    requires n <= |lists|
  {
    if n == 0 then [] else StatPictures(mem, lists, n - 1) + ListPictures(mem, lists[n - 1], |lists[n - 1]|)
  }

  function Picture(mem: map<int, Word>, root: Word, S: Shape): Image
    requires |S.lists| == |S.gens|
  {
    Image(root, GenPictures(mem, S.gens, |S.gens|), StatPictures(mem, S.lists, |S.lists|))
  }

  function Sum(lists: seq<seq<int>>, n: nat): nat
    requires n <= |lists|
  {
    if n == 0 then 0 else Sum(lists, n - 1) + |lists[n - 1]|
  }

  lemma {:induction false} StatCount(mem: map<int, Word>, lists: seq<seq<int>>, n: nat)
    requires n <= |lists|
    ensures |StatPictures(mem, lists, n)| == Sum(lists, n) && StatsOk(StatPictures(mem, lists, n))
  {
    if n > 0 {
      StatCount(mem, lists, n - 1);
    }
  }

  lemma PictureOk(mem: map<int, Word>, root: Word, S: Shape)
    requires ShapeOk(mem, S)
    ensures GensOk(Picture(mem, root, S).gens, 0) && StatsOk(Picture(mem, root, S).stats)
    ensures |Picture(mem, root, S).gens| == |S.gens| && |Picture(mem, root, S).stats| == Sum(S.lists, |S.lists|)
  {
    StatCount(mem, S.lists, |S.lists|);
    forall k | 0 <= k < |S.gens| ensures GenOk(Picture(mem, root, S).gens[k], 0 + k) {
      assert GenAt(mem, S, k);
    }
  }

  /** The checksum of an area of memory. */
  method SumOf(mem: map<int, Word>, start: int, n: nat) returns (w: Word)
    ensures w == Checksum(Slice(mem, start, n))
  {
    var sum, i := CHECKSUM_START, 0;
    var all := Slice(mem, start, n);
    assert all[0..] == all;
    while i < n
      invariant 0 <= i <= n && ChecksumFrom(sum, all[i..]) == ChecksumFrom(CHECKSUM_START, all)
    {
      assert all[i..][1..] == all[i + 1..];
      sum := Xor(sum, Raw32(Get(mem, start + i)));
      i := i + 1;
    }
    w := Imm(sum);
  }

  /** The header with the table of contents. */
  method WriteHeader(toc: seq<int>) returns (out: seq<Word>)
    ensures out == EncodeHeader(toc)
  {
    var table := IMAGE_HEADER_SIZE + WordAlign(|ID|);
    out := [Imm(IMAGE_HEADER_SIZE), Imm(table), Imm(table + TableLength(toc))];
    out := out + (Chars(IdChars()) + Zeros(WordAlign(|ID|) - |ID|));
    out := out + (Chars(toc) + Zeros(TableLength(toc) - |toc|));
  }

  lemma ChainOf(mem: map<int, Word>, S: Shape, i: int)
    requires ShapeOk(mem, S) && 0 <= i <= |S.gens|
    ensures Nth(S.gens, i, 0) == 0 <==> i == |S.gens|
  {
    if i < |S.gens| {
      assert GenAt(mem, S, i);
    }
  }

  /** The first pass: how many generations and static objects there are. */
  method Count(mem: map<int, Word>, creation: int, ghost S: Shape) returns (nrGens: nat, nrStatic: int)
    requires ShapeOk(mem, S) && creation == Nth(S.gens, 0, 0)
    ensures nrGens == |S.gens| && nrStatic == Sum(S.lists, |S.lists|)
  {
    hide GenAt;
    nrGens, nrStatic := 0, 0;
    var gen := creation;
    ChainOf(mem, S, 0);
    while gen != 0
      invariant nrGens <= |S.gens| && gen == Nth(S.gens, nrGens, 0) && nrStatic == Sum(S.lists, nrGens)
      invariant gen == 0 <==> nrGens == |S.gens|
      decreases |S.gens| - nrGens
    {
      GenFacts(mem, S, nrGens);
      nrStatic := nrStatic + Num(Get(mem, gen + NR_STATIC));
      nrGens := nrGens + 1;
      gen := Num(Get(mem, gen + PARENT));
      ChainOf(mem, S, nrGens);
    }
  }

  lemma GenFacts(mem: map<int, Word>, S: Shape, i: int)
    requires ShapeOk(mem, S) && 0 <= i < |S.gens|
    ensures var g := S.gens[i];
            Num(Get(mem, g + PARENT)) == Nth(S.gens, i + 1, 0) && 0 <= Live(mem, g, i) &&
            Num(Get(mem, g + NR_STATIC)) == |S.lists[i]|
    ensures var g := S.gens[i];
            Num(Get(mem, g + STATICS)) == Nth(S.lists[i], 0, g + STATICS) && g != 0 && (i > 0 ==> g != S.gens[0])
  {
    assert GenAt(mem, S, i);
  }

  lemma NoneYet(mem: map<int, Word>, S: Shape)
    ensures EncodeGens(GenPictures(mem, S.gens, 0)) == [] && EncodeStats(StatPictures(mem, S.lists, 0)) == []
  {
  }

  /** The second pass: the descriptors and contents of the generations. */
  method WriteGens(mem: map<int, Word>, creation: int, ghost S: Shape) returns (out: seq<Word>)
    requires ShapeOk(mem, S) && creation == Nth(S.gens, 0, 0)
    ensures out == EncodeGens(GenPictures(mem, S.gens, |S.gens|))
  {
    hide ShapeOk, EncodeGens, EncodeGen, GenPictures;
    out := [];
    var gen := creation;
    ghost var i := 0;
    ChainOf(mem, S, 0);
    NoneYet(mem, S);
    while gen != 0
      invariant i <= |S.gens| && gen == Nth(S.gens, i, 0) && out == EncodeGens(GenPictures(mem, S.gens, i))
      invariant gen == 0 <==> i == |S.gens|
      decreases |S.gens| - i
    {
      GenFacts(mem, S, i);
      var one := WriteGen(mem, gen, creation, i);
      OneMoreGen(mem, S.gens, i);
      out := out + one;
      i := i + 1;
      gen := Num(Get(mem, gen + PARENT));
      ChainOf(mem, S, i);
    }
  }

  /** One generation: its address, its descriptor, its contents and their checksum. */
  method WriteGen(mem: map<int, Word>, gen: int, creation: int, ghost i: int) returns (out: seq<Word>)
    requires 0 <= Live(mem, gen, i) && (gen == creation <==> i == 0)
    ensures out == EncodeGen(GenPicture(mem, gen, i))
  {
    var start := Num(Get(mem, gen + START));
    var top := Num(Get(mem, gen + if gen == creation then TOP else IMAGE_TOP));
    var live := top - start;
    out := [Imm(gen)] + Slice(mem, gen, DESCRIPTOR);
    var sum := SumOf(mem, start, live);
    out := out + Slice(mem, start, live);
    out := out + [sum];
  }

  lemma OneMoreGen(mem: map<int, Word>, gens: seq<int>, i: nat)
    requires i < |gens|
    ensures EncodeGens(GenPictures(mem, gens, i + 1)) == EncodeGens(GenPictures(mem, gens,
            i)) + EncodeGen(GenPicture(mem, gens[i], i))
  {
    hide EncodeGens, EncodeGen, GenPicture;
    assert GenPictures(mem, gens, i + 1) == GenPictures(mem, gens, i) + [GenPicture(mem, gens[i], i)];
    MoreGens(GenPictures(mem, gens, i), GenPicture(mem, gens[i], i));
  }

  /** The static objects of one generation, along its list. */
  method WriteList(mem: map<int, Word>, gen: int, ghost S: Shape, ghost i: int, ghost before: seq<StatImage>)
    returns (out: seq<Word>)
    requires ShapeOk(mem, S) && 0 <= i < |S.gens| && gen == S.gens[i]
    ensures EncodeStats(before) + out == EncodeStats(before + ListPictures(mem, S.lists[i], |S.lists[i]|))
  {
    hide ShapeOk, EncodeStats, EncodeStat, ListPictures;
    out := [];
    var stat := Num(Get(mem, gen + STATICS));
    SameLength(mem, S);
    ghost var j, list := 0, S.lists[i];
    GenFacts(mem, S, i);
    StatChain(mem, S, i, 0);
    NoPictures(mem, list, before);
    while stat != gen + STATICS
      invariant 0 <= j <= |list| && stat == Nth(list, j, gen + STATICS) && (stat == gen + STATICS <==> j == |list|)
      invariant EncodeStats(before) + out == EncodeStats(before + ListPictures(mem, list, j))
      decreases |list| - j
    {
      var one := WriteStat(mem, stat);
      OneMoreStat(mem, list, j, before);
      Join(EncodeStats(before), out, one);
      out := out + one;
      j := j + 1;
      stat := Num(Get(mem, stat));
      StatChain(mem, S, i, j);
    }
  }

  lemma NoPictures(mem: map<int, Word>, list: seq<int>, before: seq<StatImage>)
    ensures EncodeStats(before) + [] == EncodeStats(before + ListPictures(mem, list, 0))
  {
    assert before + ListPictures(mem, list, 0) == before;
  }

  lemma StatChain(mem: map<int, Word>, S: Shape, i: int, j: int)
    requires ShapeOk(mem, S) && 0 <= i < |S.gens| && 0 <= j <= |S.lists[i]|
    ensures var end := S.gens[i] + STATICS;
            (Nth(S.lists[i], j, end) == end <==> j == |S.lists[i]|) &&
            (j > 0 ==> Num(Get(mem, S.lists[i][j - 1])) == Nth(S.lists[i], j, end))
  {
    if j < |S.lists[i]| {
      assert StatAt(mem, S, i, j);
    }
    if j > 0 {
      assert StatAt(mem, S, i, j - 1);
    }
  }

  /** One static object: its address, its header, its size, its words and their checksum. */
  method WriteStat(mem: map<int, Word>, stat: int) returns (out: seq<Word>)
    ensures out == EncodeStat(StatPicture(mem, stat))
  {
    var header := Get(mem, stat + OBJECT);
    var size := Footprint(header);
    var base := stat + OBJECT;
    var sum := SumOf(mem, base, size);
    out := [Imm(stat)] + Slice(mem, stat, STATIC_DESCRIPTOR);
    out := out + [Imm(size)];
    out := out + Slice(mem, base, size);
    out := out + [sum];
  }

  lemma OneMoreStat(mem: map<int, Word>, list: seq<int>, j: nat, before: seq<StatImage>)
    requires j < |list|
    ensures EncodeStats(before + ListPictures(mem, list, j + 1)) == EncodeStats(before + ListPictures(mem, list,
            j)) + EncodeStat(StatPicture(mem, list[j]))
  {
    hide EncodeStats, EncodeStat, StatPicture;
    assert before + ListPictures(mem, list, j + 1) == before + ListPictures(mem, list, j) + [StatPicture(mem, list[j])];
    MoreStats(before + ListPictures(mem, list, j), StatPicture(mem, list[j]));
  }

  /** The third pass: the static objects of all generations. */
  method WriteStats(mem: map<int, Word>, creation: int, ghost S: Shape) returns (out: seq<Word>)
    requires ShapeOk(mem, S) && creation == Nth(S.gens, 0, 0)
    ensures out == EncodeStats(StatPictures(mem, S.lists, |S.lists|))
  {
    hide ShapeOk, EncodeStats, StatPictures, ListPictures;
    out := [];
    var gen := creation;
    ghost var i := 0;
    ChainOf(mem, S, 0);
    NoneYet(mem, S);
    SameLength(mem, S);
    while gen != 0
      invariant i <= |S.gens| && gen == Nth(S.gens, i, 0) && out == EncodeStats(StatPictures(mem, S.lists, i))
      invariant gen == 0 <==> i == |S.gens|
      decreases |S.gens| - i
    {
      GenFacts(mem, S, i);
      var one := WriteList(mem, gen, S, i, StatPictures(mem, S.lists, i));
      OneMoreList(mem, S.lists, i);
      out := out + one;
      i := i + 1;
      gen := Num(Get(mem, gen + PARENT));
      ChainOf(mem, S, i);
    }
  }

  lemma SameLength(mem: map<int, Word>, S: Shape)
    requires ShapeOk(mem, S)
    ensures |S.lists| == |S.gens|
  {
  }

  lemma OneMoreList(mem: map<int, Word>, lists: seq<seq<int>>, i: nat)
    requires i < |lists|
    ensures StatPictures(mem, lists, i + 1) == StatPictures(mem, lists, i) + ListPictures(mem, lists[i], |lists[i]|)
  {
  }

  /** `image_save_common`: the stream is the picture of the heap, and reading it gives that picture again. */
  method Save(mem: map<int, Word>, creation: int, root: Word, toc: seq<int>, ghost S: Shape) returns (out: seq<Word>)
    requires ShapeOk(mem, S) && creation == Nth(S.gens, 0, 0)
    ensures |S.lists| == |S.gens| && out == Encode(toc, Picture(mem, root, S))
    ensures ParseImage(out) == Parsed(Picture(mem, root, S), |out|)
  {
    hide ShapeOk, GenPictures, StatPictures, EncodeGens, EncodeStats, EncodeHeader, ParseImage;
    SameLength(mem, S);
    PictureOk(mem, root, S);
    out := WriteHeader(toc);
    ghost var header := out;
    out := out + [root];
    var nrGens, nrStatic := Count(mem, creation, S);
    out := out + [Imm(nrGens)] + [Imm(nrStatic)];
    var gens := WriteGens(mem, creation, S);
    out := out + gens;
    if nrStatic > 0 {
      var stats := WriteStats(mem, creation, S);
      out := out + stats;
    } else {
      NoStats(StatPictures(mem, S.lists, |S.lists|));
    }
    ghost var img := Picture(mem, root, S);
    assert out == header + ([root, Imm(nrGens), Imm(nrStatic)] + EncodeGens(img.gens) + EncodeStats(img.stats));
    ImageBack(toc, img, []);
    assert out + [] == out;
  }

  lemma NoStats(ss: seq<StatImage>)
    ensures |ss| == 0 ==> EncodeStats(ss) == []
  {
  }
}
