/** The C heap: an address-ordered, first-fit malloc with immediate coalescing. Addresses and sizes
    are in bytes; memory is a map from the addresses of words to their contents. */
module Malloc {
  import opened Seqs

  const ALIGNMENT := 8
  const HEADER := 8
  const MINIMUM_BLOCK_SIZE := 16
  const MINIMUM_CHUNK_SIZE := 0x10000
  const CHUNK_HEADER := 8
  const BLOCK_SIZE := 0x10000

  /** The mark in the header of an allocated block; it is no aligned address. */
  const MALLOC_SIG := 0xa110c51

  /** `x` is the address of a word, or the offset of one. */
  ghost predicate Word(x: int) {
    x % 4 == 0
  }

  lemma WordIn(b: int, x: int)
    requires b % 8 == 0 && Word(x)
    ensures Word(b + HEADER + x)
  {
  }

  function Align(x: nat): nat {
    (x + 7) / 8 * 8
  }

  /** Block length from request. */
  function BlockSize(request: nat): (r: nat)
    ensures r % 8 == 0 && r >= MINIMUM_BLOCK_SIZE && r >= request + HEADER
    ensures r == MINIMUM_BLOCK_SIZE || r < request + HEADER + 8
  {
    var rounded := Align(request + HEADER);
    if rounded < MINIMUM_BLOCK_SIZE then MINIMUM_BLOCK_SIZE else rounded
  }

  // ---- Tiling ----

  /** The block at `b` lies in the chunk at `c`, and what follows it is the chunk's end or another block. */
  ghost predicate Placed(blocks: map<int, nat>, chunks: map<int, nat>, c: int, b: int) {
    c in chunks && b in blocks && c + CHUNK_HEADER <= b && b + blocks[b] <= c + chunks[c] &&
    (b + blocks[b] == c + chunks[c] || b + blocks[b] in blocks)
  }

  ghost predicate BlockOk(blocks: map<int, nat>, chunks: map<int, nat>, b: int) {
    b in blocks && b % 8 == 0 && blocks[b] % 8 == 0 && MINIMUM_BLOCK_SIZE <= blocks[b] && exists c ::
      Placed(blocks, chunks, c, b)
  }

  ghost predicate ChunkOk(blocks: map<int, nat>, chunks: map<int, nat>, c: int) {
    c in chunks && 0 < c && c % 8 == 0 && chunks[c] % 8 == 0 && c + CHUNK_HEADER in blocks
  }

  ghost predicate BlocksApart(blocks: map<int, nat>, b1: int, b2: int) {
    b1 in blocks && b2 in blocks && b1 < b2 ==> b1 + blocks[b1] <= b2
  }

  ghost predicate ChunksApart(chunks: map<int, nat>, c1: int, c2: int) {
    c1 in chunks && c2 in chunks && c1 < c2 ==> c1 + chunks[c1] <= c2
  }

  /** The chunks do not overlap, and the blocks exactly tile each chunk after its header. */
  ghost predicate Tiled(blocks: map<int, nat>, chunks: map<int, nat>) {
    && (forall b {:trigger BlockOk(blocks, chunks, b)} :: b in blocks ==> BlockOk(blocks, chunks, b))
    && (forall c {:trigger ChunkOk(blocks, chunks, c)} :: c in chunks ==> ChunkOk(blocks, chunks, c))
    && (forall b1, b2 {:trigger BlocksApart(blocks, b1, b2)} :: BlocksApart(blocks, b1, b2))
    && (forall c1, c2 {:trigger ChunksApart(chunks, c1, c2)} :: ChunksApart(chunks, c1, c2))
  }

  lemma ChunkOf(blocks: map<int, nat>, chunks: map<int, nat>, b: int) returns (c: int)
    requires Tiled(blocks, chunks) && b in blocks
    ensures Placed(blocks, chunks, c, b) && ChunkOk(blocks, chunks, c)
    ensures b % 8 == 0 && blocks[b] % 8 == 0 && MINIMUM_BLOCK_SIZE <= blocks[b] && 0 < b
  {
    assert BlockOk(blocks, chunks, b);
    c :| Placed(blocks, chunks, c, b);
    assert ChunkOk(blocks, chunks, c);
  }

  /** A block lies in just one chunk. */
  lemma SameChunk(blocks: map<int, nat>, chunks: map<int, nat>, c: int, c2: int, b: int)
    requires Tiled(blocks, chunks) && Placed(blocks, chunks, c, b) && b + blocks[b] in blocks
    requires Placed(blocks, chunks, c2, b + blocks[b])
    ensures c2 == c
  {
    assert ChunksApart(chunks, c, c2) && ChunksApart(chunks, c2, c);
    assert BlockOk(blocks, chunks, b + blocks[b]);
    assert BlockOk(blocks, chunks, b);
  }

  /** From any block on, the blocks of a chunk leave no byte out. */
  lemma {:induction false} NoGap(blocks: map<int, nat>, chunks: map<int, nat>, c: int, b: int, x: int) returns (d: int)
    requires Tiled(blocks, chunks) && Placed(blocks, chunks, c, b) && b <= x < c + chunks[c]
    ensures d in blocks && d <= x < d + blocks[d]
    decreases c + chunks[c] - b
  {
    assert BlockOk(blocks, chunks, b);
    if x < b + blocks[b] {
      d := b;
    } else {
      var next := b + blocks[b];
      var c2 := ChunkOf(blocks, chunks, next);
      assert ChunksApart(chunks, c, c2) && ChunksApart(chunks, c2, c);
      d := NoGap(blocks, chunks, c, next, x);
    }
  }

  /** Splitting a block in two. */
  lemma SplitTiled(blocks: map<int, nat>, chunks: map<int, nat>, b: int, r: nat)
    requires Tiled(blocks, chunks) && b in blocks && r % 8 == 0 && MINIMUM_BLOCK_SIZE <= r
    requires MINIMUM_BLOCK_SIZE + r <= blocks[b]
    ensures b + r !in blocks && Tiled(blocks[b := r][b + r := blocks[b] - r], chunks)
  {
    var blocks1 := blocks[b := r][b + r := blocks[b] - r];
    assert BlocksApart(blocks, b, b + r);
    forall d {:trigger BlockOk(blocks1, chunks, d)} | d in blocks1 ensures BlockOk(blocks1, chunks, d) {
      SplitBlock(blocks, chunks, b, r, d);
    }
    forall e {:trigger ChunkOk(blocks1, chunks, e)} | e in chunks ensures ChunkOk(blocks1, chunks, e) {
      assert ChunkOk(blocks, chunks, e);
    }
    forall b1, b2 {:trigger BlocksApart(blocks1, b1, b2)} ensures BlocksApart(blocks1, b1, b2) {
      assert BlocksApart(blocks, b1, b2) && BlocksApart(blocks, b, b2) && BlocksApart(blocks, b1, b) &&
             BlocksApart(blocks, b, b1);
    }
  }

  lemma SplitBlock(blocks: map<int, nat>, chunks: map<int, nat>, b: int, r: nat, d: int)
    requires Tiled(blocks, chunks) && b in blocks && r % 8 == 0 && MINIMUM_BLOCK_SIZE <= r
    requires MINIMUM_BLOCK_SIZE + r <= blocks[b]
    requires d in blocks || d == b + r
    ensures BlockOk(blocks[b := r][b + r := blocks[b] - r], chunks, d)
  {
    hide Tiled;
    var blocks1 := blocks[b := r][b + r := blocks[b] - r];
    var c := ChunkOf(blocks, chunks, b);
    if d == b || d == b + r {
      assert Placed(blocks1, chunks, c, d);
    } else {
      var e := ChunkOf(blocks, chunks, d);
      assert Placed(blocks1, chunks, e, d);
    }
  }

  /** Joining a block with the one that follows it. */
  lemma MergeTiled(blocks: map<int, nat>, chunks: map<int, nat>, b: int)
    requires Tiled(blocks, chunks) && b in blocks && b + blocks[b] in blocks
    ensures var a := b + blocks[b]; Tiled(blocks[b := blocks[b] + blocks[a]] - {a}, chunks)
  {
    var a := b + blocks[b];
    var blocks1 := blocks[b := blocks[b] + blocks[a]] - {a};
    forall d {:trigger BlockOk(blocks1, chunks, d)} | d in blocks1 ensures BlockOk(blocks1, chunks, d) {
      MergeBlock(blocks, chunks, b, d);
    }
    forall e {:trigger ChunkOk(blocks1, chunks, e)} | e in chunks ensures ChunkOk(blocks1, chunks, e) {
      MergeChunk(blocks, chunks, b, e);
    }
    forall b1, b2 {:trigger BlocksApart(blocks1, b1, b2)} ensures BlocksApart(blocks1, b1, b2) {
      assert BlocksApart(blocks, b1, b2) && BlocksApart(blocks, a, b2) && BlocksApart(blocks, b1, a);
    }
  }

  lemma MergeChunk(blocks: map<int, nat>, chunks: map<int, nat>, b: int, e: int)
    requires Tiled(blocks, chunks) && b in blocks && b + blocks[b] in blocks && e in chunks
    ensures e + CHUNK_HEADER != b + blocks[b] && ChunkOk(blocks, chunks, e)
  {
    var a := b + blocks[b];
    var c := ChunkOf(blocks, chunks, b);
    var c2 := ChunkOf(blocks, chunks, a);
    SameChunk(blocks, chunks, c, c2, b);
    assert ChunkOk(blocks, chunks, e);
    assert ChunksApart(chunks, c, e) && ChunksApart(chunks, e, c);
  }

  lemma MergeBlock(blocks: map<int, nat>, chunks: map<int, nat>, b: int, d: int)
    requires Tiled(blocks, chunks) && b in blocks && b + blocks[b] in blocks && d in blocks && d != b + blocks[b]
    ensures var a := b + blocks[b]; BlockOk(blocks[b := blocks[b] + blocks[a]] - {a}, chunks, d)
  {
    var a := b + blocks[b];
    var blocks1 := blocks[b := blocks[b] + blocks[a]] - {a};
    var c := ChunkOf(blocks, chunks, b);
    var c2 := ChunkOf(blocks, chunks, a);
    SameChunk(blocks, chunks, c, c2, b);
    assert BlocksApart(blocks, a, a + blocks[a]);
    if d == b {
      assert Placed(blocks1, chunks, c, b);
    } else {
      var e := ChunkOf(blocks, chunks, d);
      assert BlocksApart(blocks, d, b) && BlocksApart(blocks, b, d);
      assert d + blocks[d] != a;
      assert Placed(blocks1, chunks, e, d);
    }
  }

  /** A chunk apart from all others. */
  ghost predicate FreshChunk(chunks: map<int, nat>, c: int, n: nat) {
    0 < c && c % 8 == 0 && n % 8 == 0 && CHUNK_HEADER + MINIMUM_BLOCK_SIZE <= n && c !in chunks &&
    forall e :: e in chunks ==> e + chunks[e] <= c || c + n <= e
  }

  lemma ApartFromChunk(blocks: map<int, nat>, chunks: map<int, nat>, c: int, n: nat, b: int)
    requires Tiled(blocks, chunks) && FreshChunk(chunks, c, n) && b in blocks
    ensures b + blocks[b] <= c || c + n + CHUNK_HEADER <= b
  {
    var e := ChunkOf(blocks, chunks, b);
  }

  lemma ExtendTiled(blocks: map<int, nat>, chunks: map<int, nat>, c: int, n: nat)
    requires Tiled(blocks, chunks) && FreshChunk(chunks, c, n)
    ensures c + CHUNK_HEADER !in blocks && Tiled(blocks[c + CHUNK_HEADER := n - CHUNK_HEADER], chunks[c := n])
  {
    var blocks1, chunks1 := blocks[c + CHUNK_HEADER := n - CHUNK_HEADER], chunks[c := n];
    if c + CHUNK_HEADER in blocks {
      ApartFromChunk(blocks, chunks, c, n, c + CHUNK_HEADER);
    }
    forall d {:trigger BlockOk(blocks1, chunks1, d)} | d in blocks1 ensures BlockOk(blocks1, chunks1, d) {
      if d == c + CHUNK_HEADER {
        assert Placed(blocks1, chunks1, c, d);
      } else {
        var e := ChunkOf(blocks, chunks, d);
        assert Placed(blocks1, chunks1, e, d);
      }
    }
    forall e {:trigger ChunkOk(blocks1, chunks1, e)} | e in chunks1 ensures ChunkOk(blocks1, chunks1, e) {
      if e != c {
        assert ChunkOk(blocks, chunks, e);
      }
    }
    forall b1, b2 {:trigger BlocksApart(blocks1, b1, b2)} ensures BlocksApart(blocks1, b1, b2) {
      assert BlocksApart(blocks, b1, b2);
      if b1 in blocks && b2 == c + CHUNK_HEADER {
        ApartFromChunk(blocks, chunks, c, n, b1);
      } else if b2 in blocks && b1 == c + CHUNK_HEADER {
        ApartFromChunk(blocks, chunks, c, n, b2);
      }
    }
    forall c1, c2 {:trigger ChunksApart(chunks1, c1, c2)} ensures ChunksApart(chunks1, c1, c2) {
      assert ChunksApart(chunks, c1, c2);
    }
  }

  // ---- The free list ----

  ghost predicate FreeAt(blocks: map<int, nat>, live: set<int>, free: seq<int>, loose: set<int>, i: int)
    requires 0 <= i < |free|
  {
    free[i] in blocks && free[i] !in live &&
    (i + 1 < |free| ==> free[i] < free[i + 1] && (i in loose || free[i] + blocks[free[i]] != free[i + 1]))
  }

  /** The free list holds just the blocks that are not allocated, in strictly ascending order, and no
      free block is directly followed by another, except perhaps at the positions `loose`. */
  ghost predicate FreeOk(blocks: map<int, nat>, live: set<int>, free: seq<int>, loose: set<int>) {
    && live <= blocks.Keys
    && (forall i {:trigger FreeAt(blocks, live, free, loose, i)} :: 0 <= i < |free| ==>
          FreeAt(blocks, live, free, loose, i))
    && (forall b :: b in blocks ==> b in live || b in free)
  }

  lemma {:induction false} FreeAscends(blocks: map<int, nat>, live: set<int>, free: seq<int>, loose: set<int>, i: int,
                                       j: int)
    requires FreeOk(blocks, live, free, loose) && 0 <= i < j < |free|
    ensures free[i] < free[j]
    decreases j
  {
    assert FreeAt(blocks, live, free, loose, j - 1);
    if i < j - 1 {
      FreeAscends(blocks, live, free, loose, i, j - 1);
    }
  }

  /** Freed blocks before and after position `k` lie before and after `b`. */
  ghost predicate Divides(free: seq<int>, k: int, b: int) {
    0 <= k <= |free| && (k > 0 ==> free[k - 1] < b) && (k < |free| ==> b < free[k])
  }

  /** Putting a block on the list; it may now touch its neighbours. */
  lemma FreeInsert(blocks: map<int, nat>, live: set<int>, free: seq<int>, k: int, b: int)
    requires FreeOk(blocks, live + {b}, free, {}) && Divides(free, k, b) && b in blocks && b !in live
    requires live <= blocks.Keys
    ensures FreeOk(blocks, live, free[..k] + [b] + free[k..], {k - 1, k})
  {
    var free1 := free[..k] + [b] + free[k..];
    forall i {:trigger FreeAt(blocks, live, free1, {k - 1, k}, i)} | 0 <= i < |free1|
      ensures FreeAt(blocks, live, free1, {k - 1, k}, i)
    {
      if i < k {
        assert FreeAt(blocks, live + {b}, free, {}, i);
      } else if i > k {
        assert FreeAt(blocks, live + {b}, free, {}, i - 1);
      }
    }
    forall d | d in blocks ensures d in live || d in free1 {
      if d == b {
        assert free1[k] == b;
      } else if d in free {
        Elsewhere(free, k, b, d);
      }
    }
  }

  lemma Elsewhere(free: seq<int>, k: int, b: int, d: int)
    requires 0 <= k <= |free| && d in free
    ensures d in free[..k] + [b] + free[k..]
  {
    var i :| 0 <= i < |free| && free[i] == d;
    assert (free[..k] + [b] + free[k..])[if i < k then i else i + 1] == d;
  }

  /** A position at which the blocks do not touch is no exception. */
  lemma FreeTight(blocks: map<int, nat>, live: set<int>, free: seq<int>, loose: set<int>, k: int)
    requires FreeOk(blocks, live, free, loose)
    requires 0 <= k && k + 1 < |free| ==> free[k] in blocks && free[k] + blocks[free[k]] != free[k + 1]
    ensures FreeOk(blocks, live, free, loose - {k})
  {
    forall i {:trigger FreeAt(blocks, live, free, loose - {k}, i)} | 0 <= i < |free|
      ensures FreeAt(blocks, live, free, loose - {k}, i)
    {
      assert FreeAt(blocks, live, free, loose, i);
    }
  }

  /** Joining the free block at position `k` with the next one, which it touches. */
  lemma FreeMerge(blocks: map<int, nat>, chunks: map<int, nat>, live: set<int>, free: seq<int>, loose: set<int>, k: int)
    requires Tiled(blocks, chunks) && FreeOk(blocks, live, free, loose) && 0 <= k && k + 1 < |free|
    requires loose <= {k - 1, k}
    requires free[k] in blocks && free[k] + blocks[free[k]] == free[k + 1] && free[k + 1] in blocks
    ensures FreeOk(blocks[free[k] := blocks[free[k]] + blocks[free[k + 1]]] - {free[k + 1]}, live,
            free[..k + 1] + free[k + 2..], loose - {k})
  {
    var b, a := free[k], free[k + 1];
    var blocks1, free1, loose1 := blocks[b := blocks[b] + blocks[a]] - {a}, free[..k + 1] + free[k + 2..], loose - {k};
    assert FreeAt(blocks, live, free, loose, k + 1);
    forall i {:trigger FreeAt(blocks1, live, free1, loose1, i)} | 0 <= i < |free1|
      ensures FreeAt(blocks1, live, free1, loose1, i)
    {
      MergeAt(blocks, chunks, live, free, loose, k, i);
    }
    forall d | d in blocks1 ensures d in live || d in free1 {
      if d in free {
        var i :| 0 <= i < |free| && free[i] == d;
        assert free1[if i <= k then i else i - 1] == d;
      }
    }
  }

  lemma MergeAt(blocks: map<int, nat>, chunks: map<int, nat>, live: set<int>, free: seq<int>, loose: set<int>, k: int,
                i: int)
    requires Tiled(blocks, chunks) && FreeOk(blocks, live, free, loose) && 0 <= k && k + 1 < |free|
    requires loose <= {k - 1, k}
    requires free[k] in blocks && free[k] + blocks[free[k]] == free[k + 1] && free[k + 1] in blocks
    requires 0 <= i < |free| - 1
    ensures FreeAt(blocks[free[k] := blocks[free[k]] + blocks[free[k + 1]]] - {free[k + 1]}, live,
            free[..k + 1] + free[k + 2..], loose - {k}, i)
  {
    hide Tiled;
    assert FreeAt(blocks, live, free, loose, k + 1) && FreeAt(blocks, live, free, loose, k);
    if i <= k {
      assert FreeAt(blocks, live, free, loose, i);
      if i < k {
        FreeAscends(blocks, live, free, loose, i, k);
      }
    } else {
      assert FreeAt(blocks, live, free, loose, i + 1);
      FreeAscends(blocks, live, free, loose, k + 1, i + 1);
    }
  }

  /** Allocating the whole block at position `k`. */
  lemma FreeTake(blocks: map<int, nat>, chunks: map<int, nat>, live: set<int>, free: seq<int>, k: int)
    requires Tiled(blocks, chunks) && FreeOk(blocks, live, free, {}) && 0 <= k < |free|
    ensures FreeOk(blocks, live + {free[k]}, free[..k] + free[k + 1..], {})
  {
    var b, free1 := free[k], free[..k] + free[k + 1..];
    assert FreeAt(blocks, live, free, {}, k);
    forall i {:trigger FreeAt(blocks, live + {b}, free1, {}, i)} | 0 <= i < |free1|
      ensures FreeAt(blocks, live + {b}, free1, {}, i)
    {
      if i < k {
        assert FreeAt(blocks, live, free, {}, i);
        assert BlocksApart(blocks, free[i], b);
        FreeAscends(blocks, live, free, {}, i, k);
      } else {
        assert FreeAt(blocks, live, free, {}, i + 1);
        FreeAscends(blocks, live, free, {}, k, i + 1);
      }
    }
    forall d | d in blocks ensures d in live + {b} || d in free1 {
      if d in free && d != b {
        var i :| 0 <= i < |free| && free[i] == d;
        assert free1[if i < k then i else i - 1] == d;
      }
    }
  }

  /** Allocating the tail of the block at position `k`. */
  lemma FreeTail(blocks: map<int, nat>, chunks: map<int, nat>, live: set<int>, free: seq<int>, k: int, r: nat)
    requires Tiled(blocks, chunks) && FreeOk(blocks, live, free, {}) && 0 <= k < |free|
    requires free[k] in blocks && r % 8 == 0 && MINIMUM_BLOCK_SIZE <= r && MINIMUM_BLOCK_SIZE + r <= blocks[free[k]]
    ensures var b := free[k]; FreeOk(blocks[b := r][b + r := blocks[b] - r], live + {b + r}, free, {})
  {
    var b := free[k];
    var blocks1 := blocks[b := r][b + r := blocks[b] - r];
    SplitTiled(blocks, chunks, b, r);
    forall i {:trigger FreeAt(blocks1, live + {b + r}, free, {}, i)} | 0 <= i < |free|
      ensures FreeAt(blocks1, live + {b + r}, free, {}, i)
    {
      assert FreeAt(blocks, live, free, {}, i);
      if i + 1 < |free| {
        assert FreeAt(blocks, live, free, {}, i + 1);
        assert BlocksApart(blocks, b, free[i + 1]);
      }
    }
  }

  // ---- Headers in memory ----

  ghost predicate LiveHeader(word: map<int, int>, blocks: map<int, nat>, b: int) {
    b in blocks && b in word && b + 4 in word && word[b] == MALLOC_SIG && word[b + 4] == blocks[b]
  }

  ghost predicate FreeHeader(word: map<int, int>, blocks: map<int, nat>, free: seq<int>, i: int)
    requires 0 <= i < |free|
  {
    free[i] in blocks && free[i] in word && free[i] + 4 in word && word[free[i]] == Nth(free, i + 1) &&
      word[free[i] + 4] == blocks[free[i]]
  }

  /** The words of memory hold the headers, and all words of blocks are there. */
  ghost predicate HeadersOk(word: map<int, int>, head: int, blocks: map<int, nat>, live: set<int>, free: seq<int>) {
    && head == Nth(free, 0)
    && (forall b {:trigger LiveHeader(word, blocks, b)} :: b in live ==> LiveHeader(word, blocks, b))
    && (forall i {:trigger FreeHeader(word, blocks, free, i)} :: 0 <= i < |free| ==> FreeHeader(word, blocks, free, i))
  }

  /** `x` is the address of a word of user data in the block at `b`. */
  ghost predicate DataWord(blocks: map<int, nat>, b: int, x: int) {
    b in blocks && Word(x) && b + HEADER <= x < b + blocks[b]
  }

  ghost predicate DataKept(word: map<int, int>, word1: map<int, int>, blocks: map<int, nat>, b: int, x: int) {
    DataWord(blocks, b, x) && x in word ==> x in word1 && word1[x] == word[x]
  }

  /** The user data of the allocated blocks `live` are the same. */
  ghost predicate DataSame(word: map<int, int>, word1: map<int, int>, blocks: map<int, nat>, live: set<int>) {
    forall b, x {:trigger DataKept(word, word1, blocks, b, x)} :: b in live ==> DataKept(word, word1, blocks, b, x)
  }

  ghost predicate Mapped(word: map<int, int>, blocks: map<int, nat>, x: int) {
    forall b :: b in blocks && b <= x < b + blocks[b] && Word(x) ==> x in word
  }

  /** Memory has all words of all blocks. */
  ghost predicate AllMapped(word: map<int, int>, blocks: map<int, nat>) {
    forall x {:trigger Mapped(word, blocks, x)} :: Mapped(word, blocks, x)
  }

  /** A word of one block lies in no other. */
  lemma InOneBlock(blocks: map<int, nat>, chunks: map<int, nat>, b: int, d: int, x: int)
    requires Tiled(blocks, chunks) && b in blocks && d in blocks && b <= x < b + blocks[b] && d <= x < d + blocks[d]
    ensures b == d
  {
    assert BlocksApart(blocks, b, d) && BlocksApart(blocks, d, b);
  }

  /** Blocks are aligned, so that header words of different blocks are different. */
  lemma HeaderApart(blocks: map<int, nat>, chunks: map<int, nat>, b: int, d: int)
    requires Tiled(blocks, chunks) && b in blocks && d in blocks
    ensures b + 4 != d && b + 4 < b + blocks[b] && 0 < b && b % 8 == 0 && d % 8 == 0
  {
    var c := ChunkOf(blocks, chunks, b);
    var e := ChunkOf(blocks, chunks, d);
  }

  lemma TakeWholeHeaders(word: map<int, int>, head: int, word1: map<int, int>, head1: int, blocks: map<int, nat>,
                         chunks: map<int, nat>,
                         live: set<int>, free: seq<int>, k: int)
    requires Tiled(blocks, chunks) && FreeOk(blocks, live, free, {}) && HeadersOk(word, head, blocks, live, free)
    requires 0 <= k < |free|
    requires word1 == (if k == 0 then word else word[free[k - 1] := Nth(free, k + 1)])[free[k] := MALLOC_SIG]
    requires head1 == if k == 0 then Nth(free, k + 1) else head
    ensures HeadersOk(word1, head1, blocks, live + {free[k]}, free[..k] + free[k + 1..])
  {
    var b, free1 := free[k], free[..k] + free[k + 1..];
    assert FreeHeader(word, blocks, free, k);
    if k > 0 {
      assert FreeHeader(word, blocks, free, k - 1);
      HeaderApart(blocks, chunks, b, free[k - 1]);
      HeaderApart(blocks, chunks, free[k - 1], b);
      FreeAscends(blocks, live, free, {}, k - 1, k);
    }
    forall d {:trigger LiveHeader(word1, blocks, d)} | d in live + {b} ensures LiveHeader(word1, blocks, d) {
      if d != b {
        assert LiveHeader(word, blocks, d);
        HeaderApart(blocks, chunks, d, b);
        NotFree(blocks, live, free, d, k);
        if k > 0 {
          NotFree(blocks, live, free, d, k - 1);
          HeaderApart(blocks, chunks, d, free[k - 1]);
        }
      } else {
        HeaderApart(blocks, chunks, b, b);
      }
    }
    forall i {:trigger FreeHeader(word1, blocks, free1, i)} | 0 <= i < |free1|
      ensures FreeHeader(word1, blocks, free1, i)
    {
      var j := if i < k then i else i + 1;
      assert free1[i] == free[j] && FreeHeader(word, blocks, free, j);
      HeaderApart(blocks, chunks, free[j], b);
      if j < k {
        FreeAscends(blocks, live, free, {}, j, k);
      } else {
        FreeAscends(blocks, live, free, {}, k, j);
      }
      if k > 0 {
        HeaderApart(blocks, chunks, free[j], free[k - 1]);
        if j < k - 1 {
          FreeAscends(blocks, live, free, {}, j, k - 1);
        } else if j > k {
          FreeAscends(blocks, live, free, {}, k - 1, j);
        }
      }
    }
  }

  lemma NotFree(blocks: map<int, nat>, live: set<int>, free: seq<int>, d: int, k: int)
    requires FreeOk(blocks, live, free, {}) && d in live && 0 <= k < |free|
    ensures d != free[k] && d in blocks && free[k] in blocks
  {
    assert FreeAt(blocks, live, free, {}, k);
  }

  lemma TakeTailHeaders(word: map<int, int>, head: int, word1: map<int, int>, blocks: map<int, nat>,
                        chunks: map<int, nat>,
                        live: set<int>, free: seq<int>, k: int, r: nat)
    requires Tiled(blocks, chunks) && FreeOk(blocks, live, free, {}) && HeadersOk(word, head, blocks, live, free)
    requires 0 <= k < |free|
    requires free[k] in blocks && r % 8 == 0 && MINIMUM_BLOCK_SIZE <= r && MINIMUM_BLOCK_SIZE + r <= blocks[free[k]]
    requires word1 == word[free[k] + r + 4 := blocks[free[k]] - r][free[k] + r := MALLOC_SIG][free[k] + 4 := r]
    ensures var b := free[k]; HeadersOk(word1, head, blocks[b := r][b + r := blocks[b] - r], live + {b + r}, free)
  {
    var b := free[k];
    var n := b + r;
    var blocks1 := blocks[b := r][n := blocks[b] - r];
    SplitTiled(blocks, chunks, b, r);
    assert FreeHeader(word, blocks, free, k);
    HeaderApart(blocks1, chunks, b, n);
    HeaderApart(blocks1, chunks, n, b);
    forall d {:trigger LiveHeader(word1, blocks1, d)} | d in live + {n} ensures LiveHeader(word1, blocks1, d) {
      if d != n {
        assert LiveHeader(word, blocks, d);
        NotFree(blocks, live, free, d, k);
        HeaderApart(blocks1, chunks, d, b);
        HeaderApart(blocks1, chunks, d, n);
        HeaderApart(blocks1, chunks, n, d);
        HeaderApart(blocks1, chunks, b, d);
      }
    }
    forall i {:trigger FreeHeader(word1, blocks1, free, i)} | 0 <= i < |free|
      ensures FreeHeader(word1, blocks1, free, i)
    {
      assert FreeHeader(word, blocks, free, i);
      if i < k {
        FreeAscends(blocks, live, free, {}, i, k);
      } else if i > k {
        FreeAscends(blocks, live, free, {}, k, i);
      }
      HeaderApart(blocks1, chunks, free[i], b);
      HeaderApart(blocks1, chunks, free[i], n);
      HeaderApart(blocks1, chunks, n, free[i]);
      HeaderApart(blocks1, chunks, b, free[i]);
    }
  }

  /** Words that lie in blocks not allocated, or in headers, are no user data. */
  ghost predicate NoData(blocks: map<int, nat>, live: set<int>, y: int) {
    exists d :: d in blocks && d <= y < d + blocks[d] && (d in live ==> y < d + HEADER)
  }

  lemma DataElsewhere(blocks: map<int, nat>, chunks: map<int, nat>, live: set<int>, y: int, b: int, x: int)
    requires Tiled(blocks, chunks) && NoData(blocks, live, y) && b in live && DataWord(blocks, b, x)
    ensures x != y
  {
    if x == y {
      var d :| d in blocks && d <= y < d + blocks[d] && (d in live ==> y < d + HEADER);
      InOneBlock(blocks, chunks, b, d, y);
    }
  }

  /** Writes to words that are no user data keep the user data. */
  lemma WritesKeepData(blocks: map<int, nat>, chunks: map<int, nat>, live: set<int>, word: map<int, int>,
                       word1: map<int, int>, Y: set<int>)
    requires Tiled(blocks, chunks) && forall y :: y in Y ==> NoData(blocks, live, y)
    requires forall x :: x in word && x !in Y ==> x in word1 && word1[x] == word[x]
    ensures DataSame(word, word1, blocks, live)
  {
    forall b, x {:trigger DataKept(word, word1, blocks, b, x)} | b in live ensures DataKept(word, word1, blocks, b, x) {
      if DataWord(blocks, b, x) && x in word && x in Y {
        DataElsewhere(blocks, chunks, live, x, b, x);
      }
    }
  }

  lemma MappedGrows(word: map<int, int>, word1: map<int, int>, blocks: map<int, nat>)
    requires AllMapped(word, blocks) && forall x :: x in word ==> x in word1
    ensures AllMapped(word1, blocks)
  {
    forall x {:trigger Mapped(word1, blocks, x)} ensures Mapped(word1, blocks, x) {
      assert Mapped(word, blocks, x);
    }
  }

  lemma HeaderNoData(blocks: map<int, nat>, chunks: map<int, nat>, live: set<int>, d: int)
    requires Tiled(blocks, chunks) && d in blocks
    ensures NoData(blocks, live, d) && NoData(blocks, live, d + 4)
  {
    var c := ChunkOf(blocks, chunks, d);
  }

  ghost predicate HeapOk(word: map<int, int>, head: int, blocks: map<int, nat>, chunks: map<int, nat>, live: set<int>,
                         free: seq<int>, loose: set<int>) {
    Tiled(blocks, chunks) && FreeOk(blocks, live, free, loose) && HeadersOk(word, head, blocks, live, free) &&
      AllMapped(word, blocks)
  }

  /** The C heap. */
  class CHeap {
    var word: map<int, int>          // memory
    var freeList: int                // the first free block, or 0
    var chunks: map<int, nat>        // the chunks that the arena has typed as C heap, with their sizes
    ghost var blocks: map<int, nat>  // all blocks with their sizes
    ghost var live: set<int>         // the allocated ones
    ghost var free: seq<int>         // the free ones in address order

    /** The chunks are tiled, and the list holds the free blocks in ascending order and fully coalesced. */
    ghost predicate Valid()
      reads this
    {
      Loose({})
    }

    constructor ()
      ensures Valid() && live == {} && chunks == map[]
    {
      word, freeList, blocks, live, free, chunks := map[], 0, map[], {}, [], map[];
    }

    /** Writes the link that leads from the block `last`, or from the head of the list. */
    method SetLink(last: int, b: int)
      modifies this`word, this`freeList
      ensures if last == 0 then word == old(word) && freeList == b
              else word == old(word)[last := b] && freeList == old(freeList)
    {
      if last == 0 {
        freeList := b;
      } else {
        word := word[last := b];
      }
    }

    /** The first block on the free list that is large enough, and the one before it. */
    method FindFit(required: nat) returns (block: int, last: int, ghost k: int)
      requires Valid()
      ensures 0 <= k <= |free| && block == Nth(free, k) && last == Nth(free, k - 1)
      ensures forall i :: 0 <= i < k ==> free[i] in blocks && blocks[free[i]] < required
      ensures k < |free| ==>
              block in blocks && block in word && block + 4 in word && word[block + 4] == blocks[block] >= required &&
              block != 0
    {
      block, last, k := freeList, 0, 0;
      while block != 0
        invariant 0 <= k <= |free| && block == Nth(free, k) && last == Nth(free, k - 1)
        invariant forall i :: 0 <= i < k ==> free[i] in blocks && blocks[free[i]] < required
        decreases |free| - k
      {
        assert FreeHeader(word, blocks, free, k);
        if word[block + 4] >= required {
          return;
        }
        last := block;
        block := word[block];
        k := k + 1;
      }
      if k < |free| {
        assert FreeAt(blocks, live, free, {}, k);
        ghost var c := ChunkOf(blocks, chunks, free[k]);
      }
    }

    /** Returns the whole block that was found. */
    method TakeWhole(block: int, last: int, ghost k: int)
      requires Valid() && 0 <= k < |free| && block == free[k] && last == Nth(free, k - 1)
      modifies this`word, this`freeList, this`live, this`free
      ensures Valid() && live == old(live) + {block} && DataSame(old(word), word, old(blocks), old(live))
      ensures LiveKept(blocks, blocks, old(live))
    {
      hide Tiled, FreeOk, HeadersOk, LiveKept;
      LiveKeptRefl(blocks, live, free);
      FreeFacts(blocks, chunks, word, freeList, live, free, k);
      ghost var word0 := word;
      SetLink(last, word[block]);
      word := word[block := MALLOC_SIG];
      TakeWholeHeaders(word0, old(freeList), word, freeList, blocks, chunks, live, free, k);
      FreeTake(blocks, chunks, live, free, k);
      MappedGrows(word0, word, blocks);
      HeaderNoData(blocks, chunks, live, block);
      if k > 0 {
        HeaderNoData(blocks, chunks, live, last);
      }
      WritesKeepData(blocks, chunks, live, word0, word, if k > 0 then {block, last} else {block});
      live, free := live + {block}, free[..k] + free[k + 1..];
    }

    /** Returns a tail of the block that was found. */
    method TakeTail(block: int, required: nat, ghost k: int) returns (made: int)
      requires Valid() && 0 <= k < |free| && block == free[k] && block in blocks && block + 4 in word
      requires word[block + 4] == blocks[block]
      requires required % 8 == 0 && MINIMUM_BLOCK_SIZE <= required && required + MINIMUM_BLOCK_SIZE <= blocks[block]
      modifies this`word, this`live, this`blocks
      ensures Valid() && made !in old(blocks) && live == old(live) + {made}
      ensures DataSame(old(word), word, old(blocks), old(live))
      ensures LiveKept(old(blocks), blocks, old(live))
      ensures made == block + old(blocks)[block] - required
      ensures blocks == old(blocks)[block := old(blocks)[block] - required][made := required]
    {
      hide Tiled, FreeOk, HeadersOk, AllMapped, NoData, DataSame, LiveKept;
      FreeFacts(blocks, chunks, word, freeList, live, free, k);
      ghost var word0 := word;
      var remaining := word[block + 4] - required;
      made := block + remaining;
      word := word[made + 4 := required];
      word := word[made := MALLOC_SIG];
      word := word[block + 4 := remaining];
      TakeTailHeaders(word0, freeList, word, blocks, chunks, live, free, k, remaining);
      SplitTiled(blocks, chunks, block, remaining);
      FreeTail(blocks, chunks, live, free, k, remaining);
      NotInLive(blocks, live, free, k);
      LiveKeptSplit(blocks, chunks, live, free, k, remaining);
      WritesKeepData(blocks, chunks, live, word0, word, {made, made + 4, block + 4});
      SplitMapped(word0, word, blocks, block, remaining);
      blocks := blocks[block := remaining][made := required];
      live := live + {made};
    }

    /** `malloc`, for a request of some bytes: the user gets the address after the header. If no free
        block is large enough, one new chunk at `heap` is. */
    method MallocBlock(requested: nat, heap: int, memory: map<int, int>) returns (p: int)
      requires Valid() && 1 <= requested
      requires FreshChunk(chunks, heap, ChunkSize(BlockSize(requested)))
      requires ChunkMemory(memory, heap, ChunkSize(BlockSize(requested)))
      requires word.Keys !! memory.Keys
      modifies this
      ensures Valid() && p - HEADER !in old(live) && live == old(live) + {p - HEADER} && p - HEADER in blocks
      ensures BlockSize(requested) <= blocks[p - HEADER] < BlockSize(requested) + MINIMUM_BLOCK_SIZE
      ensures LiveKept(old(blocks), blocks, old(live))
      ensures DataSame(old(word), word, old(blocks), old(live))
      ensures chunks == old(chunks) || chunks == old(chunks)[heap := ChunkSize(BlockSize(requested))]
      ensures (exists b :: b in old(free) && b in old(blocks) && old(blocks)[b] >= BlockSize(requested)) ==>
              chunks == old(chunks)
      ensures NoneBefore(old(blocks), old(free), BlockSize(requested), p - HEADER + blocks[p - HEADER])
    {
      hide Tiled, FreeOk, HeadersOk, AllMapped, DataSame, FreshChunk, ChunkSize, ChunkMemory, BlockSize, NoneBefore,
        LiveKept, Word;
      var required := BlockSize(requested);
      var block, last;
      ghost var k, word0, blocks0, live0 := 0, word, blocks, live;
      LiveBlocks(blocks, live, free);
      block, last, k := FindFit(required);
      DataSameRefl(word, blocks, live);
      LiveKeptRefl(blocks, live, free);
      if block == 0 {
        NoFit(blocks, chunks, word, freeList, live, free, k, required);
        NoneBeforeAny(blocks, free, required);
        Extend(required, heap, memory);
        LiveKeptGrow(blocks0, live0, heap + CHUNK_HEADER, ChunkSize(required) - CHUNK_HEADER);
        block, last, k := FindFit(required);
        ChunkFits(blocks, heap, required, free, k);
      }
      ghost var word1, blocks1 := word, blocks;
      FreeFacts(blocks, chunks, word, freeList, live, free, k);
      FirstFit(blocks, chunks, live, free, k, required);
      p := Take(block, last, required, k);
      LiveKeptTwice(blocks0, blocks1, blocks, live0);
      DataSameLive(word0, word1, word, blocks0, blocks1, live0);
    }

    /** `malloc`: a request of no bytes is one of a single byte. */
    method Malloc(requested: nat, heap: int, memory: map<int, int>) returns (p: int)
      requires Valid()
      requires FreshChunk(chunks, heap, ChunkSize(BlockSize(requested)))
      requires ChunkMemory(memory, heap, ChunkSize(BlockSize(requested)))
      requires word.Keys !! memory.Keys
      modifies this
      ensures Valid() && p - HEADER !in old(live) && live == old(live) + {p - HEADER} && p - HEADER in blocks
      ensures BlockSize(requested) <= blocks[p - HEADER] < BlockSize(requested) + MINIMUM_BLOCK_SIZE
      ensures LiveKept(old(blocks), blocks, old(live))
      ensures DataSame(old(word), word, old(blocks), old(live))
      ensures chunks == old(chunks) || chunks == old(chunks)[heap := ChunkSize(BlockSize(requested))]
      ensures (exists b :: b in old(free) && b in old(blocks) && old(blocks)[b] >= BlockSize(requested)) ==>
              chunks == old(chunks)
      ensures NoneBefore(old(blocks), old(free), BlockSize(requested), p - HEADER + blocks[p - HEADER])
    {
      hide Tiled, FreeOk, HeadersOk, AllMapped, DataSame, FreshChunk, ChunkSize, ChunkMemory, LiveKept, NoneBefore;
      p := MallocBlock(if requested == 0 then 1 else requested, heap, memory);
    }

    /** Allocates from the block that was found, all of it or a tail. */
    method Take(block: int, last: int, required: nat, ghost k: int) returns (p: int)
      requires Valid() && 0 <= k < |free| && block == free[k] && last == Nth(free, k - 1)
      requires block in blocks && block + 4 in word && word[block + 4] == blocks[block]
      requires required % 8 == 0 && MINIMUM_BLOCK_SIZE <= required <= blocks[block]
      modifies this`word, this`freeList, this`live, this`free, this`blocks
      ensures Valid() && p - HEADER !in old(live) && live == old(live) + {p - HEADER} && p - HEADER in blocks
      ensures required <= blocks[p - HEADER] < required + MINIMUM_BLOCK_SIZE
      ensures p - HEADER + blocks[p - HEADER] == block + old(blocks)[block]
      ensures LiveKept(old(blocks), blocks, old(live)) && DataSame(old(word), word, old(blocks), old(live))
    {
      hide Tiled, FreeOk, HeadersOk, AllMapped, DataSame, LiveKept;
      FreeFacts(blocks, chunks, word, freeList, live, free, k);
      LiveBlocks(blocks, live, free);
      if word[block + 4] < required + MINIMUM_BLOCK_SIZE {
        TakeWhole(block, last, k);
        p := block + HEADER;
      } else {
        var made := TakeTail(block, required, k);
        p := made + HEADER;
      }
    }

    /** `Valid`, but that blocks at the positions `loose` of the free list may touch the next ones. */
    ghost predicate Loose(loose: set<int>)
      reads this
    {
      HeapOk(word, freeList, blocks, chunks, live, free, loose)
    }

    /** Joins the free block at `b` with the next one on the list if they touch. */
    method Coalesce(b: int, next: int, ghost k: int, ghost loose: set<int>, ghost block: int,
                    ghost word0: map<int, int>, ghost blocks0: map<int, nat>, ghost live0: set<int>)
      requires Loose(loose) && loose <= {k - 1, k} && 0 <= k < |free| && b == free[k] && next == Nth(free, k + 1)
      requires FreedTo(block, word0, blocks0, live0, word, blocks, live, free)
      modifies this`word, this`blocks, this`free
      ensures Loose(loose - {k}) && k < |free| && free[..k + 1] == old(free)[..k + 1]
      ensures FreedTo(block, word0, blocks0, live0, word, blocks, live, free)
    {
      hide Tiled, FreeOk, HeadersOk, AllMapped, FreedTo;
      FreeHere(word, freeList, blocks, chunks, live, free, loose, k);
      if b + word[b + 4] == next {
        ghost var word1 := word;
        Joined(word, freeList, blocks, chunks, live, free, loose, k, block, word0, blocks0, live0);
        TwoFree(blocks, chunks, word, freeList, live, free, loose, k);
        word := word[b + 4 := word[b + 4] + word[next + 4]];
        word := word[b := word[next]];
        assert word == word1[b + 4 := blocks[b] + blocks[next]][b := Nth(free, k + 2)];
        blocks := blocks[b := blocks[b] + blocks[next]] - {next};
        free := free[..k + 1] + free[k + 2..];
      } else {
        FreeTight(blocks, live, free, loose, k);
      }
    }

    /** The free blocks around `block`, searched from the first free block on. */
    method Neighbours(block: int) returns (prev: int, next: int, ghost k: int)
      requires Valid() && block !in free && |free| > 0 && free[0] <= block
      ensures 0 < k && Divides(free, k, block) && prev == free[k - 1] && next == Nth(free, k)
      ensures prev in blocks && prev + 4 in word && word[prev + 4] == blocks[prev]
    {
      assert FreeHeader(word, blocks, free, 0);
      prev, next, k := freeList, word[freeList], 1;
      while next != 0 && next <= block
        invariant 0 < k <= |free| && prev == free[k - 1] && next == Nth(free, k) && prev < block
        decreases |free| - k
      {
        assert FreeHeader(word, blocks, free, k);
        prev := next;
        next := word[prev];
        k := k + 1;
      }
      FreeFacts(blocks, chunks, word, freeList, live, free, k - 1);
      if k < |free| {
        FreeFacts(blocks, chunks, word, freeList, live, free, k);
      }
    }

    /** Frees a block that belongs after the first free block, and joins it with its free neighbours.
        What is free already is left alone. */
    method FreeAfter(block: int)
      requires Valid() && block !in free && |free| > 0 && free[0] <= block
      requires block in live || Covered(blocks, free, block, 1)
      modifies this`word, this`live, this`free, this`blocks
      ensures Valid()
      ensures if block in old(live) then FreedTo(block, old(word), old(blocks), old(live), word, blocks, live, free)
              else word == old(word) && blocks == old(blocks) && live == old(live) && free == old(free)
    {
      hide Tiled, FreeOk, HeadersOk, AllMapped, FreedTo, Covered;
      var prev, next;
      ghost var k;
      prev, next, k := Neighbours(block);
      FreeAlready(blocks, chunks, live, free, k, block);
      if block < prev + word[prev + 4] {
        return;
      }
      ghost var word0 := word;
      Linked(word, freeList, blocks, chunks, live, free, k, block);
      word := word[block := next];
      word := word[prev := block];
      assert word == word0[prev := block][block := next];
      live, free := live - {block}, free[..k] + [block] + free[k..];
      Coalesce(block, next, k, {k - 1, k}, block, old(word), old(blocks), old(live));
      assert free[k] == free[..k + 1][k] && free[k - 1] == free[..k + 1][k - 1];
      assert {k - 1, k} - {k} == {k - 1};
      Coalesce(prev, block, k - 1, {k - 1}, block, old(word), old(blocks), old(live));
      assert {k - 1} - {k - 1} == {};
    }

    /** Frees a block that becomes the first on the list. */
    method FreeFirst(block: int)
      requires Valid() && block in live && (|free| > 0 ==> block < free[0])
      modifies this`word, this`freeList, this`live, this`free, this`blocks
      ensures Valid() && FreedTo(block, old(word), old(blocks), old(live), word, blocks, live, free)
    {
      hide Tiled, FreeOk, HeadersOk, AllMapped, FreedTo;
      Linked(word, freeList, blocks, chunks, live, free, 0, block);
      LiveWord(word, freeList, blocks, chunks, live, free, block);
      ghost var word1, live1, free1, first := word[block := Nth(free, 0)], live - {block}, [block] + free, freeList;
      assert free[..0] + [block] + free[0..] == free1;
      ListHead(word, freeList, blocks, chunks, live, free);
      if freeList != 0 && block + word[block + 4] == freeList {
        Joined(word1, block, blocks, chunks, live1, free1, {-1, 0}, 0, block, word, blocks, live);
        TwoFree(blocks, chunks, word1, block, live1, free1, {-1, 0}, 0);
        HeaderApart(blocks, chunks, first, block);
        word := word[block + 4 := word[block + 4] + word[freeList + 4]];
        freeList := word[freeList];
        word := word[block := freeList];
        assert word == word1[block + 4 := blocks[block] + blocks[first]][block := Nth(free1, 2)];
        blocks := blocks[block := blocks[block] + blocks[first]] - {first};
        live, free := live1, free1[..1] + free1[2..];
      } else {
        FreeTight(blocks, live1, free1, {-1, 0}, 0);
        word := word[block := freeList];
        live, free := live1, free1;
      }
      assert HeapOk(word, block, blocks, chunks, live, free, {-1, 0} - {0});
      assert FreedTo(block, old(word), old(blocks), old(live), word, blocks, live, free);
      FreeTight(blocks, live, free, {-1, 0} - {0}, -1);
      assert {-1, 0} - {0} - {-1} == {};
      freeList := block;
    }

    /** An address that looks as if `malloc` had returned it. */
    predicate Malloced(p: int)
      reads this`word, this`chunks
    {
      (exists c :: c in chunks && c <= p < c + chunks[c]) && p % 8 == 0 &&
      p - HEADER in word && word[p - HEADER] == MALLOC_SIG
    }

    /** `free`. It does nothing to an address that `malloc` did not return, nor to one freed already, even if
        the word before that still looks like the mark of an allocated block. */
    method Free(p: int)
      requires Valid() && (Malloced(p) ==> p - HEADER in live || Covered(blocks, free, p - HEADER, 1))
      modifies this`word, this`freeList, this`live, this`free, this`blocks
      ensures Valid() && (Malloced(p) ==> old(Malloced(p)) && p - HEADER !in old(live))
      ensures if old(Malloced(p)) && p - HEADER in old(live)
              then FreedTo(p - HEADER, old(word), old(blocks), old(live), word, blocks, live, free)
              else word == old(word) && blocks == old(blocks) && live == old(live) && free == old(free)
    {
      if p == 0 || !Malloced(p) {
        ChunksPositive(blocks, chunks);
        return;
      }
      hide Tiled, HeadersOk, AllMapped, DataSame, LiveKept, Covered, FreeOk;
      var block := p - HEADER;
      ListHead(word, freeList, blocks, chunks, live, free);
      FreeUnmarked(blocks, chunks, word, freeList, live, free, block);
      if block !in live {
        AfterFirst(blocks, live, free, block);
      }
      if freeList != 0 && freeList <= block {
        FreeAfter(block);
      } else {
        FreeFirst(block);
      }
    }

    /** Where a block at `b` belongs on the free list: the block before it, or 0, and the one after it. */
    method FindPlace(b: int) returns (last: int, insert: int, ghost k: int)
      requires Valid() && b !in free
      ensures Divides(free, k, b) && insert == Nth(free, k) && last == Nth(free, k - 1)
    {
      insert, last, k := freeList, 0, 0;
      while insert != 0 && insert < b
        invariant 0 <= k <= |free| && insert == Nth(free, k) && last == Nth(free, k - 1) && (k > 0 ==> free[k - 1] < b)
        decreases |free| - k
      {
        assert FreeHeader(word, blocks, free, k);
        last := insert;
        insert := word[insert];
        k := k + 1;
      }
      if k < |free| {
        FreeFacts(blocks, chunks, word, freeList, live, free, k);
      }
    }

    /** Takes over the memory of a new chunk and writes the header of its one block. */
    method AddMemory(heap: int, size: nat, memory: map<int, int>)
      requires Valid() && FreshChunk(chunks, heap, size) && ChunkMemory(memory, heap, size) && word.Keys !! memory.Keys
      modifies this`word
      ensures Valid() && Preserves(old(word), word, {}) && HasChunk(word, heap, size)
      ensures var b := heap + CHUNK_HEADER; b in word && b + 4 in word && word[b + 4] == size - CHUNK_HEADER
    {
      hide Tiled, FreeOk, HeadersOk, AllMapped, ChunkMemory, Preserves, HasChunk, FreshChunk;
      ghost var word0 := word;
      var made := heap + CHUNK_HEADER;
      word := word + memory;
      word := word[made := 0][made + 4 := size - CHUNK_HEADER];
      MemoryAdded(word0, memory, word, chunks, heap, size);
      NewMemory(blocks, chunks, live, free, freeList, word0, word, heap, size);
    }

    /** `extend`: gets a new chunk at `heap`, as one large free block. `memory` are its words. */
    method Extend(required: nat, heap: int, memory: map<int, int>)
      requires Valid() && FreshChunk(chunks, heap, ChunkSize(required))
      requires ChunkMemory(memory, heap, ChunkSize(required))
      requires word.Keys !! memory.Keys
      modifies this
      ensures Valid() && live == old(live) && chunks == old(chunks)[heap := ChunkSize(required)]
      ensures blocks == old(blocks)[heap + CHUNK_HEADER := ChunkSize(required) - CHUNK_HEADER]
      ensures heap + CHUNK_HEADER !in old(blocks)
      ensures heap + CHUNK_HEADER in free && DataSame(old(word), word, old(blocks), live)
    {
      hide Tiled, FreeOk, HeadersOk, AllMapped, NoData, DataSame, FreshChunk, ChunkSize, ChunkMemory, Preserves,
        HasChunk;
      var size := ChunkSize(required);
      ghost var word0 := word;
      ghost var blocks0 := blocks;
      AddMemory(heap, size, memory);
      ghost var word1 := word;
      LinkChunk(heap, size);
      DataSameAfter(word0, word1, word, blocks0, live);
    }

    /** Puts the block of a new chunk on the free list. */
    method LinkChunk(heap: int, size: nat)
      requires Valid() && FreshChunk(chunks, heap, size) && HasChunk(word, heap, size)
      requires var b := heap + CHUNK_HEADER; b in word && b + 4 in word && word[b + 4] == size - CHUNK_HEADER
      modifies this
      ensures Valid() && live == old(live) && chunks == old(chunks)[heap := size]
      ensures CHUNK_HEADER <= size && blocks == old(blocks)[heap + CHUNK_HEADER := size - CHUNK_HEADER]
      ensures heap + CHUNK_HEADER !in old(blocks)
      ensures heap + CHUNK_HEADER in free && DataSame(old(word), word, old(blocks), live)
    {
      hide Tiled, FreeOk, HeadersOk, AllMapped, NoData, DataSame, HasChunk;
      var made := heap + CHUNK_HEADER;
      ghost var word1, head1, k := word, freeList, 0;
      ExtendTiled(blocks, chunks, heap, size);
      NotYetFree(blocks, live, free, made);
      var last, insert;
      last, insert, k := FindPlace(made);
      if k > 0 {
        FreeFacts(blocks, chunks, word, freeList, live, free, k - 1);
      }
      SetLink(last, made);
      word := word[made := insert];
      ghost var blocks1, chunks1 := blocks[made := size - CHUNK_HEADER], chunks[heap := size];
      ExtendFree(blocks, chunks, live, free, heap, size, k);
      HeadersGrow(word1, head1, blocks, live, free, made, size - CHUNK_HEADER);
      LinkData(blocks, chunks, word1, head1, word, live, free, k, heap, size);
      InsertHeaders(word1, head1, word, freeList, blocks1, chunks1, live, free, k, made);
      ExtendMapped(word1, word, blocks, chunks, live, heap, size);
      chunks := chunks[heap := size];
      blocks, free := blocks1, free[..k] + [made] + free[k..];
      assert free[k] == made;
    }

    /** `memcpy` between blocks, word by word. */
    method Copy(from: int, to: int, n: int)
      requires Valid() && from - HEADER in live && to - HEADER in live && from != to && n % 8 == 0 && 0 <= n
      requires from - HEADER in blocks && from + n <= from - HEADER + blocks[from - HEADER]
      requires to - HEADER in blocks && to + n <= to - HEADER + blocks[to - HEADER]
      modifies this`word
      ensures Valid() && Contents(old(word), from, word, to, n) && KeptOutside(old(word), word, to, n)
    {
      hide Tiled, FreeOk, HeadersOk, AllMapped, Contents, KeptOutside;
      CopyApart(word, freeList, blocks, chunks, live, free, from - HEADER, to - HEADER, n);
      ghost var word0 := word;
      var i := 0;
      CopyBegins(word, from, to, n);
      while i < n
        invariant 0 <= i <= n && Word(i)
        invariant Contents(word0, from, word, to, i) && KeptOutside(word0, word, to, n)
      {
        CopyStep(word0, word, from, to, i, n);
        word := word[to + i := word[from + i]];
        i := i + 4;
      }
      DataWrites(word0, word, freeList, blocks, chunks, live, free, to - HEADER, n);
    }

    /** Cuts an allocated block down to `required` bytes and frees the rest. */
    method Truncate(block: int, required: nat)
      requires Valid() && block in live && block in blocks && required % 8 == 0 && MINIMUM_BLOCK_SIZE <= required
      requires required + MINIMUM_BLOCK_SIZE <= blocks[block]
      modifies this`word, this`freeList, this`live, this`free, this`blocks
      ensures Valid() && live == old(live) && block in blocks && blocks[block] == required
      ensures LiveKept(old(blocks), blocks, live - {block}) && DataSame(old(word), word, old(blocks), live - {block})
      ensures Contents(old(word), block + HEADER, word, block + HEADER, required - HEADER)
    {
      hide Tiled, FreeOk, HeadersOk, AllMapped, DataSame, LiveKept, Covered;
      LiveWord(word, freeList, blocks, chunks, live, free, block);
      LiveBlocks(blocks, live, free);
      var size := word[block + 4];
      var made := block + required;
      ghost var word0, live0, blocks0 := word, live, blocks;
      SplitLive(word, freeList, blocks, chunks, live, free, block, required);
      word := word[made + 4 := size - required];
      word := word[made := MALLOC_SIG];
      word := word[block + 4 := required];
      blocks := blocks[block := required][made := size - required];
      live := live + {made};
      ghost var word1, blocks1 := word, blocks;
      LooksMalloced(word, freeList, blocks, chunks, live, free, made);
      Free(made + HEADER);
      assert live == live0;
      Truncated(word0, word1, word, blocks0, blocks1, blocks, live, block, required);
    }

    /** `realloc`. A request of zero bytes frees the block, or allocates one byte, as the system's
        `os_allocator` does it. */
    method Realloc(p: int, requested: nat, heap: int, memory: map<int, int>) returns (r: int)
      requires Valid()
      requires Malloced(p) ==> p - HEADER in live || (requested == 0 && Covered(blocks, free, p - HEADER, 1))
      requires FreshChunk(chunks, heap, ChunkSize(BlockSize(requested)))
      requires ChunkMemory(memory, heap, ChunkSize(BlockSize(requested)))
      requires word.Keys !! memory.Keys
      modifies this
      ensures Valid()
      ensures p == 0 ==>
              r - HEADER !in old(live) && live == old(live) + {r - HEADER} && r - HEADER in blocks &&
              BlockSize(requested) <= blocks[r - HEADER] < BlockSize(requested) + MINIMUM_BLOCK_SIZE &&
              NoneBefore(old(blocks), old(free), BlockSize(requested), r - HEADER + blocks[r - HEADER])
      ensures p == 0 ==> LiveKept(old(blocks), blocks, old(live)) && DataSame(old(word), word, old(blocks), old(live))
      ensures p != 0 && !(old(Malloced(p)) && p - HEADER in old(live)) ==>
              r == (if requested == 0 then p else 0) && word == old(word) && live == old(live) && blocks == old(blocks)
      ensures old(Malloced(p)) && p - HEADER in old(live) && requested == 0 ==>
              r == p && FreedTo(p - HEADER, old(word), old(blocks), old(live), word, blocks, live, free)
      ensures old(Malloced(p)) && requested > 0 ==>
              Resized(p, r, requested, old(word), old(blocks), old(live), word, blocks, live)
    {
      hide Tiled, FreeOk, HeadersOk, AllMapped, DataSame, FreshChunk, ChunkSize, ChunkMemory, LiveKept, Contents,
        NoneBefore, FreedTo;
      ChunksPositive(blocks, chunks);
      LiveKeptRefl(blocks, live, free);
      var required := BlockSize(requested);
      if requested == 0 {
        if p == 0 {
          r := MallocBlock(1, heap, memory);
        } else {
          Free(p);
          r := p;
        }
        return;
      }
      if p == 0 {
        r := MallocBlock(requested, heap, memory);
        return;
      }
      if !Malloced(p) {
        r := 0;
        return;
      }
      var block := p - HEADER;
      LiveWord(word, freeList, blocks, chunks, live, free, block);
      var size := word[block + 4];
      if size >= required {
        AllContents(word, blocks, block);
        DataSameRefl(word, blocks, live - {block});
        if size >= required + MINIMUM_BLOCK_SIZE {
          Truncate(block, required);
        }
        r := p;
      } else {
        r := Move(p, requested, size, heap, memory);
      }
    }

    /** The part of `realloc` that moves the contents to a larger block. */
    method Move(p: int, requested: nat, size: int, heap: int, memory: map<int, int>) returns (r: int)
      requires Valid() && Malloced(p) && p - HEADER in live && p - HEADER in blocks
      requires size == blocks[p - HEADER] < BlockSize(requested) && 1 <= requested
      requires FreshChunk(chunks, heap, ChunkSize(BlockSize(requested)))
      requires ChunkMemory(memory, heap, ChunkSize(BlockSize(requested)))
      requires word.Keys !! memory.Keys
      modifies this
      ensures Valid() && Resized(p, r, requested, old(word), old(blocks), old(live), word, blocks, live)
    {
      hide Tiled, FreeOk, HeadersOk, AllMapped, DataSame, FreshChunk, ChunkSize, ChunkMemory, LiveKept, Contents,
        NoneBefore, KeptOutside, Covered;
      ghost var word0, blocks0, live0, block := word, blocks, live, p - HEADER;
      LiveBlocks(blocks, live, free);
      r := MallocBlock(requested, heap, memory);
      ghost var word1, blocks1, d := word, blocks, r - HEADER;
      LooksMalloced(word, freeList, blocks, chunks, live, free, block);
      LiveWord(word, freeList, blocks, chunks, live, free, block);
      LiveWord(word, freeList, blocks, chunks, live, free, d);
      KeptAt(blocks0, blocks, live0, block);
      Copy(p, r, size - HEADER);
      ghost var word2 := word;
      LooksMalloced(word, freeList, blocks, chunks, live, free, block);
      Free(p);
      KeptTrans(blocks0, blocks1, blocks, live0, block, d);
      MovedContents(word0, word1, word2, word, blocks0, blocks1, live0, block, d, size);
      MovedOthers(word0, word1, word2, word, blocks0, blocks1, chunks, live0, block, d, size);
    }
  }

  /** All words of `word` but those at `Y` are in `word1`, too. */
  ghost predicate Preserves(word: map<int, int>, word1: map<int, int>, Y: set<int>) {
    forall x :: x in word && x !in Y ==> x in word1 && word1[x] == word[x]
  }

  ghost predicate HasChunk(word: map<int, int>, c: int, n: nat) {
    forall x :: c <= x < c + n && Word(x) ==> x in word
  }

  /** `memory` are the words of the chunk at `c`. */
  ghost predicate ChunkMemory(memory: map<int, int>, c: int, n: nat) {
    forall x :: x in memory <==> c <= x < c + n && Word(x)
  }

  /** Linking in a chunk touches no user data. */
  lemma LinkData(blocks: map<int, nat>, chunks: map<int, nat>, word: map<int, int>, head: int, word1: map<int, int>,
                 live: set<int>, free: seq<int>, k: int, c: int, n: nat)
    requires Tiled(blocks, chunks) && FreeOk(blocks, live, free, {}) && HeadersOk(word, head, blocks, live, free)
    requires FreshChunk(chunks, c, n)
    requires 0 <= k <= |free|
    requires word1 == (if k == 0 then word else word[free[k - 1] := c + CHUNK_HEADER])[c + CHUNK_HEADER := Nth(free, k)]
    ensures DataSame(word, word1, blocks, live)
    ensures k > 0 ==> free[k - 1] in blocks && free[k - 1] in word && free[k - 1] != 0
  {
    hide FreshChunk, AllMapped, NoData;
    if k > 0 {
      FreeFacts(blocks, chunks, word, head, live, free, k - 1);
      HeaderNoData(blocks, chunks, live, free[k - 1]);
    }
    var word2 := if k == 0 then word else word[free[k - 1] := c + CHUNK_HEADER];
    WritesKeepData(blocks, chunks, live, word, word2, if k > 0 then {free[k - 1]} else {});
    OutsideData(blocks, chunks, live, word2, word1, c, n, Nth(free, k));
    DataSameTrans(word, word2, word1, blocks, live);
  }

  lemma OutsideData(blocks: map<int, nat>, chunks: map<int, nat>, live: set<int>, word: map<int, int>,
                    word1: map<int, int>, c: int, n: nat, v: int)
    requires Tiled(blocks, chunks) && FreshChunk(chunks, c, n) && word1 == word[c + CHUNK_HEADER := v]
    ensures DataSame(word, word1, blocks, live)
  {
    forall b, x {:trigger DataKept(word, word1, blocks, b, x)} | b in live ensures DataKept(word, word1, blocks, b, x) {
      if DataWord(blocks, b, x) {
        ApartFromChunk(blocks, chunks, c, n, b);
      }
    }
  }

  lemma DataSameTrans(word: map<int, int>, word1: map<int, int>, word2: map<int, int>, blocks: map<int, nat>,
                      live: set<int>)
    requires DataSame(word, word1, blocks, live) && DataSame(word1, word2, blocks, live)
    ensures DataSame(word, word2, blocks, live)
  {
    forall b, x {:trigger DataKept(word, word2, blocks, b, x)} | b in live ensures DataKept(word, word2, blocks, b, x) {
      assert DataKept(word, word1, blocks, b, x) && DataKept(word1, word2, blocks, b, x);
    }
  }

  lemma DataSameAfter(word: map<int, int>, word1: map<int, int>, word2: map<int, int>, blocks: map<int, nat>,
                      live: set<int>)
    requires Preserves(word, word1, {}) && DataSame(word1, word2, blocks, live)
    ensures DataSame(word, word2, blocks, live)
  {
    forall b, x {:trigger DataKept(word, word2, blocks, b, x)} | b in live ensures DataKept(word, word2, blocks, b, x) {
      assert DataKept(word1, word2, blocks, b, x);
    }
  }

  lemma ChunkKeys(memory: map<int, int>, chunks: map<int, nat>, c: int, n: nat)
    requires FreshChunk(chunks, c, n) && ChunkMemory(memory, c, n)
    ensures c + CHUNK_HEADER in memory.Keys && c + CHUNK_HEADER + 4 in memory.Keys && HasChunk(memory, c, n)
  {
  }

  lemma MemoryAdded(word: map<int, int>, memory: map<int, int>, word1: map<int, int>, chunks: map<int, nat>, c: int,
                    n: nat)
    requires FreshChunk(chunks, c, n) && ChunkMemory(memory, c, n) && word.Keys !! memory.Keys
    requires var b := c + CHUNK_HEADER; word1 == (word + memory)[b := 0][b + 4 := n - CHUNK_HEADER]
    ensures CHUNK_HEADER <= n && Preserves(word, word1, {}) && HasChunk(word1, c, n)
  {
    hide ChunkMemory;
    ChunkKeys(memory, chunks, c, n);
    forall x | x in word ensures x in word1 && word1[x] == word[x] {
      assert x !in memory.Keys;
    }
  }

  /** New memory does not disturb what is there. */
  lemma NewMemory(blocks: map<int, nat>, chunks: map<int, nat>, live: set<int>, free: seq<int>, head: int,
                  word: map<int, int>, word1: map<int, int>, c: int, n: nat)
    requires Tiled(blocks, chunks) && FreeOk(blocks, live, free, {}) && HeadersOk(word, head, blocks, live, free)
    requires FreshChunk(chunks, c, n)
    requires AllMapped(word, blocks)
    requires Preserves(word, word1, {})
    ensures HeadersOk(word1, head, blocks, live, free) && AllMapped(word1, blocks)
  {
    MappedGrows(word, word1, blocks);
    forall d {:trigger LiveHeader(word1, blocks, d)} | d in live ensures LiveHeader(word1, blocks, d) {
      assert LiveHeader(word, blocks, d);
    }
    forall i {:trigger FreeHeader(word1, blocks, free, i)} | 0 <= i < |free|
      ensures FreeHeader(word1, blocks, free, i)
    {
      assert FreeHeader(word, blocks, free, i);
    }
  }

  lemma ExtendFree(blocks: map<int, nat>, chunks: map<int, nat>, live: set<int>, free: seq<int>, c: int, n: nat, k: int)
    requires Tiled(blocks, chunks) && FreeOk(blocks, live, free, {}) && FreshChunk(chunks, c, n)
    requires Divides(free, k, c + CHUNK_HEADER)
    ensures var b := c + CHUNK_HEADER; var blocks1 := blocks[b := n - CHUNK_HEADER];
            FreeOk(blocks1, live + {b}, free, {}) && FreeOk(blocks1, live, free[..k] + [b] + free[k..], {})
  {
    hide Tiled;
    var b := c + CHUNK_HEADER;
    var blocks1, free1 := blocks[b := n - CHUNK_HEADER], free[..k] + [b] + free[k..];
    ExtendTiled(blocks, chunks, c, n);
    NotYetFree(blocks, live, free, b);
    forall i {:trigger FreeAt(blocks1, live + {b}, free, {}, i)} | 0 <= i < |free|
      ensures FreeAt(blocks1, live + {b}, free, {}, i)
    {
      assert FreeAt(blocks, live, free, {}, i);
    }
    FreeInsert(blocks1, live, free, k, b);
    if k > 0 {
      assert FreeAt(blocks, live, free, {}, k - 1);
      ApartFromChunk(blocks, chunks, c, n, free[k - 1]);
    }
    FreeTight(blocks1, live, free1, {k - 1, k}, k - 1);
    if k < |free| {
      assert FreeAt(blocks, live, free, {}, k);
      ApartFromChunk(blocks, chunks, c, n, free[k]);
    }
    FreeTight(blocks1, live, free1, {k - 1, k} - {k - 1}, k);
    assert {k - 1, k} - {k - 1} - {k} == {};
  }

  /** Linking the block `b` in at position `k`. */
  lemma InsertHeaders(word: map<int, int>, head: int, word1: map<int, int>, head1: int, blocks: map<int, nat>,
                      chunks: map<int, nat>,
                      live: set<int>, free: seq<int>, k: int, b: int)
    requires Tiled(blocks, chunks) && b in blocks && b !in live && Divides(free, k, b)
    requires FreeOk(blocks, live + {b}, free, {}) && HeadersOk(word, head, blocks, live, free)
    requires b in word && b + 4 in word && word[b + 4] == blocks[b]
    requires word1 == (if k == 0 then word else word[free[k - 1] := b])[b := Nth(free, k)]
    requires head1 == if k == 0 then b else head
    ensures HeadersOk(word1, head1, blocks, live, free[..k] + [b] + free[k..])
  {
    NotYetFree(blocks, live + {b}, free, b);
    forall i, j | 0 <= i < j < |free| ensures free[i] != free[j] {
      FreeAscends(blocks, live + {b}, free, {}, i, j);
    }
    InsertHeadersAt(word, head, word1, head1, blocks, chunks, live, free, k, b);
  }

  lemma InsertHeadersAt(word: map<int, int>, head: int, word1: map<int, int>, head1: int, blocks: map<int, nat>,
                        chunks: map<int, nat>,
                        live: set<int>, free: seq<int>, k: int, b: int)
    requires Tiled(blocks, chunks) && b in blocks && b !in live && b !in free && Divides(free, k, b)
    requires HeadersOk(word, head, blocks, live, free)
    requires forall i :: 0 <= i < |free| ==> free[i] in blocks && free[i] !in live
    requires forall i, j :: 0 <= i < j < |free| ==> free[i] != free[j]
    requires b in word && b + 4 in word && word[b + 4] == blocks[b]
    requires word1 == (if k == 0 then word else word[free[k - 1] := b])[b := Nth(free, k)]
    requires head1 == if k == 0 then b else head
    ensures HeadersOk(word1, head1, blocks, live, free[..k] + [b] + free[k..])
  {
    hide Tiled;
    var free1 := free[..k] + [b] + free[k..];
    HeaderApart(blocks, chunks, b, b);
    if k > 0 {
      HeaderApart(blocks, chunks, b, free[k - 1]);
      HeaderApart(blocks, chunks, free[k - 1], b);
    }
    forall d {:trigger LiveHeader(word1, blocks, d)} | d in live ensures LiveHeader(word1, blocks, d) {
      assert LiveHeader(word, blocks, d);
      HeaderApart(blocks, chunks, d, b);
      if k > 0 {
        HeaderApart(blocks, chunks, d, free[k - 1]);
      }
    }
    forall i {:trigger FreeHeader(word1, blocks, free1, i)} | 0 <= i < |free1|
      ensures FreeHeader(word1, blocks, free1, i)
    {
      if i != k {
        var j := if i < k then i else i - 1;
        assert free1[i] == free[j] && FreeHeader(word, blocks, free, j);
        HeaderApart(blocks, chunks, free[j], b);
        if k > 0 {
          HeaderApart(blocks, chunks, free[j], free[k - 1]);
        }
      }
    }
  }

  lemma ExtendMapped(word: map<int, int>, word1: map<int, int>, blocks: map<int, nat>, chunks: map<int, nat>,
                     live: set<int>, c: int, n: nat)
    requires AllMapped(word, blocks)
    requires CHUNK_HEADER <= n && (forall x :: x in word ==> x in word1) && HasChunk(word, c, n)
    ensures var blocks1 := blocks[c + CHUNK_HEADER := n - CHUNK_HEADER];
            AllMapped(word1, blocks1)
  {
    var blocks1 := blocks[c + CHUNK_HEADER := n - CHUNK_HEADER];
    forall x {:trigger Mapped(word1, blocks1, x)} ensures Mapped(word1, blocks1, x) {
      assert Mapped(word, blocks, x);
    }
  }

  lemma HeadersGrow(word: map<int, int>, head: int, blocks: map<int, nat>, live: set<int>, free: seq<int>, b: int,
                    n: nat)
    requires HeadersOk(word, head, blocks, live, free) && b !in blocks
    ensures HeadersOk(word, head, blocks[b := n], live, free)
  {
    var blocks1 := blocks[b := n];
    forall d {:trigger LiveHeader(word, blocks1, d)} | d in live ensures LiveHeader(word, blocks1, d) {
      assert LiveHeader(word, blocks, d);
    }
    forall i {:trigger FreeHeader(word, blocks1, free, i)} | 0 <= i < |free|
      ensures FreeHeader(word, blocks1, free, i)
    {
      assert FreeHeader(word, blocks, free, i);
    }
  }

  /** The size of the chunk that `extend` asks for. */
  function ChunkSize(required: nat): (n: nat)
    ensures n % 8 == 0 && required + CHUNK_HEADER <= n
    ensures n % BLOCK_SIZE == 0 && n < required + CHUNK_HEADER + BLOCK_SIZE
  {
    var r := if required + CHUNK_HEADER < MINIMUM_CHUNK_SIZE then MINIMUM_CHUNK_SIZE else required + CHUNK_HEADER;
    (r + BLOCK_SIZE - 1) / BLOCK_SIZE * BLOCK_SIZE
  }

  lemma NotYetFree(blocks: map<int, nat>, live: set<int>, free: seq<int>, b: int)
    requires FreeOk(blocks, live, free, {})
    ensures b !in blocks ==> b !in free && b !in live
    ensures b in live ==> b !in free
    ensures forall i :: 0 <= i < |free| ==> free[i] in blocks && free[i] !in live
  {
    forall i | 0 <= i < |free| ensures free[i] in blocks && free[i] !in live {
      assert FreeAt(blocks, live, free, {}, i);
    }
  }

  lemma FreeFacts(blocks: map<int, nat>, chunks: map<int, nat>, word: map<int, int>, head: int, live: set<int>,
                  free: seq<int>, k: int)
    requires Tiled(blocks, chunks) && FreeOk(blocks, live, free, {}) && HeadersOk(word, head, blocks, live, free)
    requires 0 <= k < |free|
    ensures free[k] in blocks && free[k] !in live && free[k] in word && word[free[k]] == Nth(free, k + 1)
    ensures free[k] != 0
    ensures free[k] + 4 in word && word[free[k] + 4] == blocks[free[k]] && blocks[free[k]] % 8 == 0
    ensures k > 0 ==> free[k - 1] in blocks && free[k - 1] in word && free[k - 1] != 0
    ensures head == Nth(free, 0)
  {
    assert FreeHeader(word, blocks, free, k) && FreeAt(blocks, live, free, {}, k);
    var c := ChunkOf(blocks, chunks, free[k]);
    if k > 0 {
      assert FreeHeader(word, blocks, free, k - 1);
      var e := ChunkOf(blocks, chunks, free[k - 1]);
    }
  }

  lemma NotInLive(blocks: map<int, nat>, live: set<int>, free: seq<int>, k: int)
    requires FreeOk(blocks, live, free, {}) && 0 <= k < |free|
    ensures free[k] in blocks && forall y :: free[k] <= y < free[k] + blocks[free[k]] ==> NoData(blocks, live, y)
  {
    assert FreeAt(blocks, live, free, {}, k);
  }

  lemma SplitMapped(word: map<int, int>, word1: map<int, int>, blocks: map<int, nat>, b: int, r: nat)
    requires AllMapped(word, blocks) && forall x :: x in word ==> x in word1
    requires b in blocks && r <= blocks[b] && b + r !in blocks
    ensures AllMapped(word1, blocks[b := r][b + r := blocks[b] - r])
  {
    var blocks1 := blocks[b := r][b + r := blocks[b] - r];
    forall x {:trigger Mapped(word1, blocks1, x)} ensures Mapped(word1, blocks1, x) {
      assert Mapped(word, blocks, x);
    }
  }

  lemma LiveBlocks(blocks: map<int, nat>, live: set<int>, free: seq<int>)
    requires FreeOk(blocks, live, free, {})
    ensures forall b :: b in live ==> b in blocks
  {
  }

  lemma DataSameRefl(word: map<int, int>, blocks: map<int, nat>, live: set<int>)
    ensures DataSame(word, word, blocks, live)
  {
  }

  /** If the search came to the end of the list, no free block is large enough. */
  lemma NoFit(blocks: map<int, nat>, chunks: map<int, nat>, word: map<int, int>, head: int, live: set<int>,
              free: seq<int>, k: int, required: nat)
    requires Tiled(blocks, chunks) && FreeOk(blocks, live, free, {}) && HeadersOk(word, head, blocks, live, free)
    requires 0 <= k <= |free| && Nth(free, k) == 0
    requires forall i :: 0 <= i < k ==> free[i] in blocks && blocks[free[i]] < required
    ensures forall b :: b in free ==> b in blocks && blocks[b] < required
  {
    if k < |free| {
      FreeFacts(blocks, chunks, word, head, live, free, k);
    }
  }

  /** The new chunk is large enough. */
  lemma ChunkFits(blocks: map<int, nat>, heap: int, required: nat, free: seq<int>, k: int)
    requires heap + CHUNK_HEADER in free && heap + CHUNK_HEADER in blocks
    requires blocks[heap + CHUNK_HEADER] == ChunkSize(required) - CHUNK_HEADER
    requires 0 <= k <= |free| && forall i :: 0 <= i < k ==> free[i] in blocks && blocks[free[i]] < required
    ensures k < |free|
  {
    var i :| 0 <= i < |free| && free[i] == heap + CHUNK_HEADER;
  }

  lemma DataSameLive(word: map<int, int>, word1: map<int, int>, word2: map<int, int>, blocks: map<int, nat>,
                     blocks1: map<int, nat>, live: set<int>)
    requires DataSame(word, word1, blocks, live) && DataSame(word1, word2, blocks1, live)
    requires LiveKept(blocks, blocks1, live)
    ensures DataSame(word, word2, blocks, live)
  {
    forall b, x {:trigger DataKept(word, word2, blocks, b, x)} | b in live ensures DataKept(word, word2, blocks, b, x) {
      assert DataKept(word, word1, blocks, b, x) && DataKept(word1, word2, blocks1, b, x);
    }
  }

  // ---- Freeing ----

  lemma TwoFree(blocks: map<int, nat>, chunks: map<int, nat>, word: map<int, int>, head: int, live: set<int>,
                free: seq<int>, loose: set<int>, k: int)
    requires Tiled(blocks, chunks) && FreeOk(blocks, live, free, loose) && HeadersOk(word, head, blocks, live, free)
    requires 0 <= k && k + 1 < |free|
    ensures var b, a := free[k], free[k + 1];
            b in blocks && a in blocks && b in word && b + 4 in word && a in word && a + 4 in word && word[b] == a &&
              word[b + 4] == blocks[b] &&
            word[a] == Nth(free, k + 2) && word[a + 4] == blocks[a] && b + 4 != a && a != 0
  {
    assert FreeHeader(word, blocks, free, k) && FreeHeader(word, blocks, free, k + 1);
    HeaderApart(blocks, chunks, free[k], free[k + 1]);
    HeaderApart(blocks, chunks, free[k + 1], free[k]);
  }

  lemma MergeMapped(word: map<int, int>, word1: map<int, int>, blocks: map<int, nat>, b: int, a: int)
    requires AllMapped(word, blocks) && forall x :: x in word ==> x in word1
    requires b in blocks && a in blocks && a == b + blocks[b]
    ensures var blocks1 := blocks[b := blocks[b] + blocks[a]] - {a}; AllMapped(word1, blocks1)
  {
    var blocks1 := blocks[b := blocks[b] + blocks[a]] - {a};
    forall x {:trigger Mapped(word1, blocks1, x)} ensures Mapped(word1, blocks1, x) {
      assert Mapped(word, blocks, x);
    }
  }

  lemma MergeHeaders(word: map<int, int>, head: int, word1: map<int, int>, blocks: map<int, nat>, chunks: map<int, nat>,
                     live: set<int>, free: seq<int>, loose: set<int>, k: int)
    requires Tiled(blocks, chunks) && FreeOk(blocks, live, free, loose) && HeadersOk(word, head, blocks, live, free)
    requires 0 <= k && k + 1 < |free|
    requires free[k] in blocks && free[k] + blocks[free[k]] == free[k + 1] && free[k + 1] in blocks
    requires word1 == word[free[k] + 4 := blocks[free[k]] + blocks[free[k + 1]]][free[k] := Nth(free, k + 2)]
    ensures HeadersOk(word1, head, blocks[free[k] := blocks[free[k]] + blocks[free[k + 1]]] - {free[k + 1]}, live,
            free[..k + 1] + free[k + 2..])
  {
    hide Tiled;
    var b, a := free[k], free[k + 1];
    var blocks1, free1 := blocks[b := blocks[b] + blocks[a]] - {a}, free[..k + 1] + free[k + 2..];
    assert FreeHeader(word, blocks, free, k);
    HeaderApart(blocks, chunks, b, b);
    forall d {:trigger LiveHeader(word1, blocks1, d)} | d in live ensures LiveHeader(word1, blocks1, d) {
      assert LiveHeader(word, blocks, d) && FreeAt(blocks, live, free, loose, k) &&
             FreeAt(blocks, live, free, loose, k + 1);
      HeaderApart(blocks, chunks, d, b);
      HeaderApart(blocks, chunks, b, d);
    }
    forall i {:trigger FreeHeader(word1, blocks1, free1, i)} | 0 <= i < |free1|
      ensures FreeHeader(word1, blocks1, free1, i)
    {
      var j := if i <= k then i else i + 1;
      assert free1[i] == free[j] && FreeHeader(word, blocks, free, j);
      if j < k {
        FreeAscends(blocks, live, free, loose, j, k);
        FreeAscends(blocks, live, free, loose, j, k + 1);
      } else if j > k + 1 {
        FreeAscends(blocks, live, free, loose, k, j);
        FreeAscends(blocks, live, free, loose, k + 1, j);
      }
      HeaderApart(blocks, chunks, free[j], b);
      HeaderApart(blocks, chunks, b, free[j]);
    }
  }

  /** The blocks `live` have kept their sizes. */
  ghost predicate LiveKept(blocks0: map<int, nat>, blocks: map<int, nat>, live: set<int>) {
    forall b :: b in live ==> b in blocks0 && b in blocks && blocks[b] == blocks0[b]
  }

  /** The bytes from `b` to `b + n` lie in a free block. */
  ghost predicate Covered(blocks: map<int, nat>, free: seq<int>, b: int, n: nat) {
    exists i :: 0 <= i < |free| && free[i] in blocks && free[i] <= b && b + n <= free[i] + blocks[free[i]]
  }

  /** What freeing `block` comes to: it is free and no longer marked, and nothing else has changed for
      the user. */
  ghost predicate FreedTo(block: int, word0: map<int, int>, blocks0: map<int, nat>, live0: set<int>,
                          word: map<int, int>, blocks: map<int, nat>, live: set<int>, free: seq<int>) {
    && block % 8 == 0 && live == live0 - {block} && LiveKept(blocks0, blocks, live)
    && DataSame(word0, word, blocks0, live)
    && block in blocks0 && Covered(blocks, free, block, blocks0[block]) && block in word && word[block] != MALLOC_SIG
  }

  lemma FreeHere(word: map<int, int>, head: int, blocks: map<int, nat>, chunks: map<int, nat>, live: set<int>,
                 free: seq<int>, loose: set<int>, k: int)
    requires HeapOk(word, head, blocks, chunks, live, free, loose) && 0 <= k < |free|
    ensures free[k] in blocks && free[k] in word && free[k] + 4 in word && word[free[k] + 4] == blocks[free[k]]
    ensures free[k] + blocks[free[k]] == Nth(free, k + 1) ==> k + 1 < |free|
  {
    assert FreeHeader(word, blocks, free, k);
    var c := ChunkOf(blocks, chunks, free[k]);
  }

  /** A link is an aligned address, and so no mark. */
  lemma LinkAligned(blocks: map<int, nat>, chunks: map<int, nat>, live: set<int>, free: seq<int>, loose: set<int>,
                    k: int)
    requires Tiled(blocks, chunks) && FreeOk(blocks, live, free, loose)
    ensures Nth(free, k) != MALLOC_SIG
  {
    if 0 <= k < |free| {
      assert FreeAt(blocks, live, free, loose, k);
      var c := ChunkOf(blocks, chunks, free[k]);
    }
  }

  lemma Unlive(word: map<int, int>, head: int, blocks: map<int, nat>, live: set<int>, free: seq<int>, b: int)
    requires HeadersOk(word, head, blocks, live, free)
    ensures HeadersOk(word, head, blocks, live - {b}, free)
  {
    forall d {:trigger LiveHeader(word, blocks, d)} | d in live - {b} ensures LiveHeader(word, blocks, d) {
    }
  }

  lemma LiveWord(word: map<int, int>, head: int, blocks: map<int, nat>, chunks: map<int, nat>, live: set<int>,
                 free: seq<int>, b: int)
    requires HeapOk(word, head, blocks, chunks, live, free, {}) && b in live
    ensures b in blocks && b in word && b + 4 in word && word[b + 4] == blocks[b] && b != 0 && b % 8 == 0
    ensures blocks[b] % 8 == 0 && MINIMUM_BLOCK_SIZE <= blocks[b]
  {
    assert LiveHeader(word, blocks, b);
    var c := ChunkOf(blocks, chunks, b);
  }

  /** An allocated block lies behind the end of the free block before it. */
  lemma LiveAfter(blocks: map<int, nat>, chunks: map<int, nat>, live: set<int>, free: seq<int>, k: int, b: int)
    requires Tiled(blocks, chunks) && FreeOk(blocks, live, free, {}) && b in live && 0 < k <= |free| && free[k - 1] < b
    ensures free[k - 1] in blocks && free[k - 1] + blocks[free[k - 1]] <= b
  {
    assert FreeAt(blocks, live, free, {}, k - 1);
    assert BlocksApart(blocks, free[k - 1], b);
  }

  lemma FreeApart(blocks: map<int, nat>, chunks: map<int, nat>, live: set<int>, free: seq<int>, i: int, j: int)
    requires Tiled(blocks, chunks) && FreeOk(blocks, live, free, {}) && 0 <= i < j < |free|
    ensures free[i] in blocks && free[j] in blocks && free[i] + blocks[free[i]] <= free[j]
  {
    assert FreeAt(blocks, live, free, {}, i) && FreeAt(blocks, live, free, {}, j);
    FreeAscends(blocks, live, free, {}, i, j);
    assert BlocksApart(blocks, free[i], free[j]);
  }

  /** An address after a free block is in it just if it is in some free block, and no block in use is. */
  lemma FreeAlready(blocks: map<int, nat>, chunks: map<int, nat>, live: set<int>, free: seq<int>, k: int, b: int)
    requires Tiled(blocks, chunks) && FreeOk(blocks, live, free, {}) && 0 < k && Divides(free, k, b)
    requires b in live || Covered(blocks, free, b, 1)
    ensures free[k - 1] in blocks && (b in live <==> free[k - 1] + blocks[free[k - 1]] <= b)
  {
    assert FreeAt(blocks, live, free, {}, k - 1);
    if b in live {
      LiveAfter(blocks, chunks, live, free, k, b);
    } else {
      var i :| 0 <= i < |free| && free[i] in blocks && free[i] <= b && b + 1 <= free[i] + blocks[free[i]];
      if i < k - 1 {
        FreeApart(blocks, chunks, live, free, i, k - 1);
      } else if k < i {
        FreeAscends(blocks, live, free, {}, k, i);
      }
    }
  }

  /** A free block does not look allocated. */
  lemma FreeUnmarked(blocks: map<int, nat>, chunks: map<int, nat>, word: map<int, int>, head: int, live: set<int>,
                     free: seq<int>, b: int)
    requires HeapOk(word, head, blocks, chunks, live, free, {}) && b in word && word[b] == MALLOC_SIG
    ensures b !in free
  {
    if b in free {
      var k :| 0 <= k < |free| && free[k] == b;
      FreeFacts(blocks, chunks, word, head, live, free, k);
      if k + 1 < |free| {
        FreeFacts(blocks, chunks, word, head, live, free, k + 1);
        var c := ChunkOf(blocks, chunks, free[k + 1]);
      }
    }
  }

  /** What is in a free block comes after the first one. */
  lemma AfterFirst(blocks: map<int, nat>, live: set<int>, free: seq<int>, b: int)
    requires FreeOk(blocks, live, free, {}) && Covered(blocks, free, b, 1)
    ensures |free| > 0 && free[0] <= b
  {
    var i :| 0 <= i < |free| && free[i] in blocks && free[i] <= b && b + 1 <= free[i] + blocks[free[i]];
    if 0 < i {
      FreeAscends(blocks, live, free, {}, 0, i);
    }
  }

  /** Linking an allocated block into the free list. */
  lemma Linked(word: map<int, int>, head: int, blocks: map<int, nat>, chunks: map<int, nat>, live: set<int>,
               free: seq<int>, k: int, b: int)
    requires HeapOk(word, head, blocks, chunks, live, free, {}) && b in live && Divides(free, k, b)
    ensures k > 0 ==> free[k - 1] != b && free[k - 1] in word
    ensures var word1 := (if k == 0 then word else word[free[k - 1] := b])[b := Nth(free, k)];
            var free1 := free[..k] + [b] + free[k..];
            HeapOk(word1, if k == 0 then b else head, blocks, chunks, live - {b}, free1, {k - 1, k}) &&
            FreedTo(b, word, blocks, live, word1, blocks, live - {b}, free1)
  {
    hide Tiled, AllMapped, DataSame, NoData;
    var word1, live1, free1 :=
      (if k == 0 then word else word[free[k - 1] := b])[b := Nth(free, k)], live - {b}, free[..k] + [b] + free[k..];
    LiveWord(word, head, blocks, chunks, live, free, b);
    LinkedList(word, head, blocks, chunks, live, free, k, b);
    LinkAligned(blocks, chunks, live, free, {}, k);
    MappedGrows(word, word1, blocks);
    HeaderNoData(blocks, chunks, live1, b);
    if k > 0 {
      FreeFacts(blocks, chunks, word, head, live, free, k - 1);
      HeaderNoData(blocks, chunks, live1, free[k - 1]);
    }
    WritesKeepData(blocks, chunks, live1, word, word1, if k > 0 then {b, free[k - 1]} else {b});
    assert free1[k] == b;
  }

  lemma LinkedList(word: map<int, int>, head: int, blocks: map<int, nat>, chunks: map<int, nat>, live: set<int>,
                   free: seq<int>, k: int, b: int)
    requires HeapOk(word, head, blocks, chunks, live, free, {}) && b in live && Divides(free, k, b)
    ensures var word1 := (if k == 0 then word else word[free[k - 1] := b])[b := Nth(free, k)];
            var free1 := free[..k] + [b] + free[k..];
            FreeOk(blocks, live - {b}, free1, {k - 1, k}) &&
              HeadersOk(word1, if k == 0 then b else head, blocks, live - {b}, free1)
  {
    hide Tiled, HeadersOk, AllMapped;
    var word1 := (if k == 0 then word else word[free[k - 1] := b])[b := Nth(free, k)];
    LiveWord(word, head, blocks, chunks, live, free, b);
    LiveBlocks(blocks, live, free);
    Unlive(word, head, blocks, live, free, b);
    assert live - {b} + {b} == live;
    FreeInsert(blocks, live - {b}, free, k, b);
    InsertHeaders(word, head, word1, if k == 0 then b else head, blocks, chunks, live - {b}, free, k, b);
  }

  /** Joining two free blocks that touch, after `block` has been freed. */
  lemma Joined(word: map<int, int>, head: int, blocks: map<int, nat>, chunks: map<int, nat>, live: set<int>,
               free: seq<int>, loose: set<int>, k: int,
               block: int, word0: map<int, int>, blocks0: map<int, nat>, live0: set<int>)
    requires HeapOk(word, head, blocks, chunks, live, free, loose) && loose <= {k - 1, k} && 0 <= k && k + 1 < |free|
    requires free[k] in blocks && free[k] + blocks[free[k]] == free[k + 1]
    requires FreedTo(block, word0, blocks0, live0, word, blocks, live, free)
    ensures free[k + 1] in blocks
    ensures var b, a := free[k], free[k + 1];
            var word1, blocks1, free1 :=
              word[b + 4 := blocks[b] + blocks[a]][b := Nth(free, k + 2)], blocks[b := blocks[b] + blocks[a]] - {a},
              free[..k + 1] + free[k + 2..];
            HeapOk(word1, head, blocks1, chunks, live, free1, loose - {k}) &&
              FreedTo(block, word0, blocks0, live0, word1, blocks1, live, free1)
  {
    hide Tiled, FreeOk, HeadersOk, AllMapped, DataSame, NoData, LiveKept, Covered;
    var b, a := free[k], free[k + 1];
    TwoFree(blocks, chunks, word, head, live, free, loose, k);
    var word1, blocks1, free1 :=
      word[b + 4 := blocks[b] + blocks[a]][b := Nth(free, k + 2)], blocks[b := blocks[b] + blocks[a]] - {a},
      free[..k + 1] + free[k + 2..];
    MergeTiled(blocks, chunks, b);
    FreeMerge(blocks, chunks, live, free, loose, k);
    MergeHeaders(word, head, word1, blocks, chunks, live, free, loose, k);
    MergeMapped(word, word1, blocks, b, a);
    HeaderNoData(blocks, chunks, live, b);
    WritesKeepData(blocks, chunks, live, word, word1, {b, b + 4});
    MergeKeeps(blocks, live, free, loose, k, blocks0);
    forall i, j | 0 <= i < j < |free| ensures free[i] < free[j] {
      FreeAscends(blocks, live, free, loose, i, j);
    }
    MergeCovers(blocks, free, k, block, blocks0[block]);
    DataSameLive(word0, word, word1, blocks0, blocks, live);
    LinkAligned(blocks, chunks, live, free, loose, k + 2);
    HeaderApart(blocks, chunks, b, a);
  }

  lemma MergeKeeps(blocks: map<int, nat>, live: set<int>, free: seq<int>, loose: set<int>, k: int,
                   blocks0: map<int, nat>)
    requires FreeOk(blocks, live, free, loose) && 0 <= k && k + 1 < |free| && LiveKept(blocks0, blocks, live)
    requires free[k] in blocks && free[k + 1] in blocks
    ensures LiveKept(blocks0, blocks[free[k] := blocks[free[k]] + blocks[free[k + 1]]] - {free[k + 1]}, live)
    ensures forall b :: b in live ==> b in blocks0 && b in blocks && blocks[b] == blocks0[b]
  {
    assert FreeAt(blocks, live, free, loose, k) && FreeAt(blocks, live, free, loose, k + 1);
  }

  lemma MergeCovers(blocks: map<int, nat>, free: seq<int>, k: int, b: int, n: nat)
    requires 0 <= k && k + 1 < |free| && free[k] in blocks && free[k + 1] in blocks
    requires free[k] + blocks[free[k]] == free[k + 1]
    requires Covered(blocks, free, b, n) && forall i, j :: 0 <= i < j < |free| ==> free[i] < free[j]
    ensures Covered(blocks[free[k] := blocks[free[k]] + blocks[free[k + 1]]] - {free[k + 1]},
            free[..k + 1] + free[k + 2..], b, n)
  {
    var blocks1, free1 := blocks[free[k] := blocks[free[k]] + blocks[free[k + 1]]] - {free[k + 1]},
      free[..k + 1] + free[k + 2..];
    var i :| 0 <= i < |free| && free[i] in blocks && free[i] <= b && b + n <= free[i] + blocks[free[i]];
    var j := if i <= k then i else i - 1;
    assert free1[j] == (if i == k + 1 then free[k] else free[i]);
  }

  lemma ListHead(word: map<int, int>, head: int, blocks: map<int, nat>, chunks: map<int, nat>, live: set<int>,
                 free: seq<int>)
    requires HeapOk(word, head, blocks, chunks, live, free, {})
    ensures head == Nth(free, 0) && (|free| > 0 ==> head != 0)
  {
    if |free| > 0 {
      FreeFacts(blocks, chunks, word, head, live, free, 0);
    }
  }

  lemma ChunksPositive(blocks: map<int, nat>, chunks: map<int, nat>)
    requires Tiled(blocks, chunks)
    ensures forall c :: c in chunks ==> 0 < c
  {
    forall c | c in chunks ensures 0 < c {
      assert ChunkOk(blocks, chunks, c);
    }
  }

  // ---- Reallocating ----

  /** The `n` bytes at `to` are those that were at `from`, word by word. */
  ghost predicate Contents(word0: map<int, int>, from: int, word: map<int, int>, to: int, n: int) {
    forall x :: 0 <= x < n && Word(x) ==> SameWord(word0, from, word, to, x)
  }

  ghost predicate SameWord(word0: map<int, int>, from: int, word: map<int, int>, to: int, x: int) {
    from + x in word0 && to + x in word && word[to + x] == word0[from + x]
  }

  /** Only the `n` bytes at `to` may have changed. */
  ghost predicate KeptOutside(word0: map<int, int>, word: map<int, int>, to: int, n: int) {
    forall x :: x in word0 ==> x in word && (x < to || to + n <= x ==> word[x] == word0[x])
  }

  /** What reallocating comes to: the contents are kept up to the smaller size, at `p` itself if the
      block was large enough, and all other blocks are as they were. */
  ghost predicate Resized(p: int, r: int, requested: nat, word0: map<int, int>, blocks0: map<int, nat>, live0: set<int>,
                          word: map<int, int>, blocks: map<int, nat>, live: set<int>) {
    var b, d := p - HEADER, r - HEADER;
    && b in blocks0 && d in blocks && (r == p <==> BlockSize(requested) <= blocks0[b]) && (d != b ==> d !in live0)
    && live == live0 - {b} + {d} && BlockSize(requested) <= blocks[d] < BlockSize(requested) + MINIMUM_BLOCK_SIZE
    && Contents(word0, p, word, r, (if blocks[d] < blocks0[b] then blocks[d] else blocks0[b]) - HEADER)
    && LiveKept(blocks0, blocks, live0 - {b}) && DataSame(word0, word, blocks0, live0 - {b})
  }

  /** No free block of `n` bytes ends before `e`. */
  ghost predicate NoneBefore(blocks: map<int, nat>, free: seq<int>, n: nat, e: int) {
    forall f :: f in free && f in blocks && n <= blocks[f] ==> e <= f + blocks[f]
  }

  lemma NoneBeforeAny(blocks: map<int, nat>, free: seq<int>, n: nat)
    requires forall b :: b in free ==> b in blocks && blocks[b] < n
    ensures forall e :: NoneBefore(blocks, free, n, e)
  {
  }

  /** The block found is the first that fits. */
  lemma FirstFit(blocks: map<int, nat>, chunks: map<int, nat>, live: set<int>, free: seq<int>, k: int, required: nat)
    requires Tiled(blocks, chunks) && FreeOk(blocks, live, free, {}) && 0 <= k < |free| && free[k] in blocks
    requires forall i :: 0 <= i < k ==> free[i] in blocks && blocks[free[i]] < required
    ensures NoneBefore(blocks, free, required, free[k] + blocks[free[k]])
  {
    forall f | f in free && f in blocks && required <= blocks[f] ensures free[k] + blocks[free[k]] <= f + blocks[f] {
      var i :| 0 <= i < |free| && free[i] == f;
      if k < i {
        FreeAscends(blocks, live, free, {}, k, i);
        assert BlocksApart(blocks, free[k], f);
      }
    }
  }

  lemma LiveKeptRefl(blocks: map<int, nat>, live: set<int>, free: seq<int>)
    requires FreeOk(blocks, live, free, {})
    ensures LiveKept(blocks, blocks, live) && forall b :: LiveKept(blocks, blocks, live - {b})
  {
  }

  /** An allocated block looks allocated. */
  lemma LooksMalloced(word: map<int, int>, head: int, blocks: map<int, nat>, chunks: map<int, nat>, live: set<int>,
                      free: seq<int>, b: int)
    requires HeapOk(word, head, blocks, chunks, live, free, {}) && b in live
    ensures (exists c :: c in chunks && c <= b + HEADER < c + chunks[c]) && (b + HEADER) % 8 == 0 && b in word
    ensures word[b] == MALLOC_SIG
  {
    assert LiveHeader(word, blocks, b);
    var c := ChunkOf(blocks, chunks, b);
  }

  /** The data of allocated blocks are where the copy loop reads and writes them. */
  lemma CopyApart(word: map<int, int>, head: int, blocks: map<int, nat>, chunks: map<int, nat>, live: set<int>,
                  free: seq<int>, b: int, d: int, n: int)
    requires HeapOk(word, head, blocks, chunks, live, free, {}) && b in blocks && d in blocks && b != d
    requires HEADER + n <= blocks[b] && HEADER + n <= blocks[d]
    ensures b % 8 == 0 && d % 8 == 0 && (b + HEADER + n <= d || d + HEADER + n <= b)
    ensures Contents(word, b + HEADER, word, b + HEADER, n) && Contents(word, d + HEADER, word, d + HEADER, n)
  {
    hide FreeOk, HeadersOk, AllMapped;
    HeaderApart(blocks, chunks, b, d);
    assert BlocksApart(blocks, b, d) && BlocksApart(blocks, d, b);
    FirstContents(word, blocks, b, n);
    FirstContents(word, blocks, d, n);
  }

  lemma FirstContents(word: map<int, int>, blocks: map<int, nat>, b: int, n: int)
    requires AllMapped(word, blocks) && b in blocks && b % 8 == 0 && HEADER + n <= blocks[b]
    ensures Contents(word, b + HEADER, word, b + HEADER, n)
  {
    AllContents(word, blocks, b);
  }

  lemma CopyBegins(word: map<int, int>, from: int, to: int, n: int)
    ensures Contents(word, from, word, to, 0) && KeptOutside(word, word, to, n)
  {
  }

  lemma CopyStep(word0: map<int, int>, word: map<int, int>, from: int, to: int, i: int, n: int)
    requires Contents(word0, from, word0, from, n) && Contents(word0, to, word0, to, n)
    requires from + n <= to || to + n <= from
    requires Contents(word0, from, word, to, i) && KeptOutside(word0, word, to, n) && 0 <= i < n && Word(i)
    requires n % 8 == 0
    ensures i + 4 <= n && Word(i + 4) && from + i in word && to + i in word
    ensures var word1 := word[to + i := word[from + i]];
            Contents(word0, from, word1, to, i + 4) && KeptOutside(word0, word1, to, n)
  {
    assert SameWord(word0, from, word0, from, i) && SameWord(word0, to, word0, to, i);
    var word1 := word[to + i := word[from + i]];
    forall x | 0 <= x < i + 4 && Word(x) ensures SameWord(word0, from, word1, to, x) {
      if x != i {
        assert SameWord(word0, from, word, to, x);
      }
    }
  }

  /** Writing user data leaves the heap in order. */
  lemma DataWrites(word: map<int, int>, word1: map<int, int>, head: int, blocks: map<int, nat>, chunks: map<int, nat>,
                   live: set<int>, free: seq<int>, d: int, n: int)
    requires HeapOk(word, head, blocks, chunks, live, free, {}) && d in blocks && HEADER + n <= blocks[d]
    requires KeptOutside(word, word1, d + HEADER, n)
    ensures HeapOk(word1, head, blocks, chunks, live, free, {})
  {
    hide Tiled;
    MappedGrows(word, word1, blocks);
    forall e {:trigger LiveHeader(word1, blocks, e)} | e in live ensures LiveHeader(word1, blocks, e) {
      assert LiveHeader(word, blocks, e);
      NoHeaderInside(blocks, chunks, d, e);
    }
    forall i {:trigger FreeHeader(word1, blocks, free, i)} | 0 <= i < |free|
      ensures FreeHeader(word1, blocks, free, i)
    {
      assert FreeHeader(word, blocks, free, i);
      NoHeaderInside(blocks, chunks, d, free[i]);
    }
  }

  lemma NoHeaderInside(blocks: map<int, nat>, chunks: map<int, nat>, d: int, e: int)
    requires Tiled(blocks, chunks) && d in blocks && e in blocks
    ensures e + HEADER <= d + HEADER || d + blocks[d] <= e
    ensures MINIMUM_BLOCK_SIZE <= blocks[d]
  {
    assert BlocksApart(blocks, d, e) && BlocksApart(blocks, e, d) && BlockOk(blocks, chunks, d) &&
           BlockOk(blocks, chunks, e);
  }

  /** Splitting an allocated block in two allocated blocks. */
  lemma SplitLive(word: map<int, int>, head: int, blocks: map<int, nat>, chunks: map<int, nat>, live: set<int>,
                  free: seq<int>, b: int, r: nat)
    requires HeapOk(word, head, blocks, chunks, live, free, {}) && b in live && b in blocks
    requires r % 8 == 0 && MINIMUM_BLOCK_SIZE <= r && MINIMUM_BLOCK_SIZE + r <= blocks[b]
    ensures var n := b + r;
            var word1, blocks1 := word[n + 4 := blocks[b] - r][n := MALLOC_SIG][b + 4 := r],
              blocks[b := r][n := blocks[b] - r];
            n !in blocks && HeapOk(word1, head, blocks1, chunks, live + {n}, free, {}) &&
            DataSame(word, word1, blocks1, live) && Contents(word, b + HEADER, word1, b + HEADER, r - HEADER)
  {
    hide Tiled, AllMapped, DataSame, HeadersOk;
    var n := b + r;
    var word1, blocks1 := word[n + 4 := blocks[b] - r][n := MALLOC_SIG][b + 4 := r], blocks[b := r][n := blocks[b] - r];
    SplitTiled(blocks, chunks, b, r);
    SplitFree(blocks, chunks, live, free, b, r);
    SplitHeaders(word, head, word1, blocks, chunks, live, free, b, r);
    SplitMapped(word, word1, blocks, b, r);
    HeaderApart(blocks1, chunks, n, n);
    HeaderNoData(blocks1, chunks, live + {n}, n);
    HeaderNoData(blocks1, chunks, live + {n}, b);
    WritesKeepData(blocks1, chunks, live + {n}, word, word1, {n + 4, n, b + 4});
    DataSameFewer(word, word1, blocks1, live + {n}, live);
    SplitContents(word, word1, blocks, b, r);
  }

  lemma SplitContents(word: map<int, int>, word1: map<int, int>, blocks: map<int, nat>, b: int, r: nat)
    requires AllMapped(word, blocks) && b in blocks && b % 8 == 0 && r <= blocks[b]
    requires forall x :: x in word && x != b + r + 4 && x != b + r && x != b + 4 ==> x in word1 && word1[x] == word[x]
    ensures Contents(word, b + HEADER, word1, b + HEADER, r - HEADER)
  {
    hide Word;
    forall x | 0 <= x < r - HEADER && Word(x) ensures SameWord(word, b + HEADER, word1, b + HEADER, x) {
      WordIn(b, x);
      assert Mapped(word, blocks, b + HEADER + x);
    }
  }

  lemma DataSameFewer(word: map<int, int>, word1: map<int, int>, blocks: map<int, nat>, live: set<int>, live1: set<int>)
    requires DataSame(word, word1, blocks, live) && live1 <= live
    ensures DataSame(word, word1, blocks, live1)
  {
  }

  lemma SplitFree(blocks: map<int, nat>, chunks: map<int, nat>, live: set<int>, free: seq<int>, b: int, r: nat)
    requires Tiled(blocks, chunks) && FreeOk(blocks, live, free, {}) && b in live && b in blocks
    requires r % 8 == 0 && MINIMUM_BLOCK_SIZE <= r && MINIMUM_BLOCK_SIZE + r <= blocks[b]
    ensures FreeOk(blocks[b := r][b + r := blocks[b] - r], live + {b + r}, free, {})
  {
    hide Tiled;
    var blocks1 := blocks[b := r][b + r := blocks[b] - r];
    SplitTiled(blocks, chunks, b, r);
    forall i {:trigger FreeAt(blocks1, live + {b + r}, free, {}, i)} | 0 <= i < |free|
      ensures FreeAt(blocks1, live + {b + r}, free, {}, i)
    {
      assert FreeAt(blocks, live, free, {}, i);
    }
  }

  lemma SplitHeaders(word: map<int, int>, head: int, word1: map<int, int>, blocks: map<int, nat>, chunks: map<int, nat>,
                     live: set<int>, free: seq<int>, b: int, r: nat)
    requires Tiled(blocks, chunks) && FreeOk(blocks, live, free, {}) && HeadersOk(word, head, blocks, live, free)
    requires b in live && b in blocks
    requires r % 8 == 0 && MINIMUM_BLOCK_SIZE <= r && MINIMUM_BLOCK_SIZE + r <= blocks[b]
    requires word1 == word[b + r + 4 := blocks[b] - r][b + r := MALLOC_SIG][b + 4 := r]
    ensures HeadersOk(word1, head, blocks[b := r][b + r := blocks[b] - r], live + {b + r}, free)
  {
    hide Tiled;
    var n := b + r;
    var blocks1 := blocks[b := r][n := blocks[b] - r];
    SplitTiled(blocks, chunks, b, r);
    HeaderApart(blocks1, chunks, b, n);
    HeaderApart(blocks1, chunks, n, b);
    forall d {:trigger LiveHeader(word1, blocks1, d)} | d in live + {n} ensures LiveHeader(word1, blocks1, d) {
      if d != n {
        assert LiveHeader(word, blocks, d);
        SplitApart(blocks1, chunks, b, n, d);
      }
    }
    forall i {:trigger FreeHeader(word1, blocks1, free, i)} | 0 <= i < |free|
      ensures FreeHeader(word1, blocks1, free, i)
    {
      assert FreeHeader(word, blocks, free, i) && FreeAt(blocks, live, free, {}, i);
      SplitApart(blocks1, chunks, b, n, free[i]);
    }
  }

  lemma SplitApart(blocks: map<int, nat>, chunks: map<int, nat>, b: int, n: int, d: int)
    requires Tiled(blocks, chunks) && b in blocks && n in blocks && d in blocks
    ensures d + 4 != n && d + 4 != b && n + 4 != d && b + 4 != d
  {
    HeaderApart(blocks, chunks, d, b);
    HeaderApart(blocks, chunks, d, n);
    HeaderApart(blocks, chunks, n, d);
    HeaderApart(blocks, chunks, b, d);
  }

  /** What is left of a truncated block has its contents, and the other blocks have theirs. */
  lemma Truncated(word0: map<int, int>, word1: map<int, int>, word2: map<int, int>, blocks0: map<int, nat>,
                  blocks1: map<int, nat>, blocks2: map<int, nat>,
                  live: set<int>, b: int, r: nat)
    requires b in live && b in blocks0 && r <= blocks0[b] && b % 8 == 0 && HEADER <= r
    requires blocks1 == blocks0[b := r][b + r := blocks0[b] - r] && b + r !in live
    requires LiveKept(blocks1, blocks2, live) && DataSame(word0, word1, blocks1, live)
    requires DataSame(word1, word2, blocks1, live)
    requires Contents(word0, b + HEADER, word1, b + HEADER, r - HEADER) && forall d :: d in live ==> d in blocks0
    ensures LiveKept(blocks0, blocks2, live - {b}) && DataSame(word0, word2, blocks0, live - {b})
    ensures b in blocks2 && blocks2[b] == r && Contents(word0, b + HEADER, word2, b + HEADER, r - HEADER)
  {
    hide Word;
    forall d, x {:trigger DataKept(word0, word2, blocks0, d, x)} | d in live - {b}
      ensures DataKept(word0, word2, blocks0, d, x)
    {
      assert DataKept(word0, word1, blocks1, d, x) && DataKept(word1, word2, blocks1, d, x);
    }
    forall x | 0 <= x < r - HEADER && Word(x) ensures SameWord(word0, b + HEADER, word2, b + HEADER, x) {
      WordIn(b, x);
      assert SameWord(word0, b + HEADER, word1, b + HEADER, x) && DataKept(word1, word2, blocks1, b, b + HEADER + x);
    }
  }

  lemma AllContents(word: map<int, int>, blocks: map<int, nat>, b: int)
    requires AllMapped(word, blocks) && b in blocks && b % 8 == 0
    ensures Contents(word, b + HEADER, word, b + HEADER, blocks[b] - HEADER)
  {
    hide Word;
    forall x | 0 <= x < blocks[b] - HEADER && Word(x) ensures SameWord(word, b + HEADER, word, b + HEADER, x) {
      WordIn(b, x);
      assert Mapped(word, blocks, b + HEADER + x);
    }
  }

  /** The contents of a block that has been moved from `b` to `d` are those it had. */
  lemma MovedContents(word0: map<int, int>, word1: map<int, int>, word2: map<int, int>, word3: map<int, int>,
                      blocks0: map<int, nat>, blocks1: map<int, nat>,
                      live: set<int>, b: int, d: int, size: int)
    requires b in live && b in blocks0 && size == blocks0[b] && b % 8 == 0 && d % 8 == 0 && d in blocks1
    requires size <= blocks1[d] && d !in live && HEADER <= size
    requires AllMapped(word0, blocks0) && DataSame(word0, word1, blocks0, live)
    requires Contents(word1, b + HEADER, word2, d + HEADER, size - HEADER)
    requires DataSame(word2, word3, blocks1, live + {d} - {b})
    ensures Contents(word0, b + HEADER, word3, d + HEADER, size - HEADER)
  {
    hide AllMapped, Word;
    AllContents(word0, blocks0, b);
    forall x | 0 <= x < size - HEADER && Word(x) ensures SameWord(word0, b + HEADER, word3, d + HEADER, x) {
      WordIn(b, x);
      WordIn(d, x);
      assert SameWord(word0, b + HEADER, word0, b + HEADER, x) && DataKept(word0, word1, blocks0, b, b + HEADER + x);
      assert SameWord(word1, b + HEADER, word2, d + HEADER, x) && DataKept(word2, word3, blocks1, d, d + HEADER + x);
    }
  }

  /** The data of the blocks that have not been moved are untouched. */
  lemma MovedOthers(word0: map<int, int>, word1: map<int, int>, word2: map<int, int>, word3: map<int, int>,
                    blocks0: map<int, nat>, blocks1: map<int, nat>,
                    chunks: map<int, nat>, live: set<int>, b: int, d: int, size: int)
    requires d in blocks1 && size <= blocks1[d] && d !in live && Tiled(blocks1, chunks)
    requires LiveKept(blocks0, blocks1, live)
    requires DataSame(word0, word1, blocks0, live) && KeptOutside(word1, word2, d + HEADER, size - HEADER)
    requires DataSame(word2, word3, blocks1, live + {d} - {b})
    ensures DataSame(word0, word3, blocks0, live - {b})
  {
    forall e, x {:trigger DataKept(word0, word3, blocks0, e, x)} | e in live - {b}
      ensures DataKept(word0, word3, blocks0, e, x)
    {
      assert DataKept(word0, word1, blocks0, e, x) && DataKept(word2, word3, blocks1, e, x);
      assert BlocksApart(blocks1, d, e) && BlocksApart(blocks1, e, d);
    }
  }

  lemma KeptTrans(blocks0: map<int, nat>, blocks1: map<int, nat>, blocks2: map<int, nat>, live: set<int>, b: int,
                  d: int)
    requires LiveKept(blocks0, blocks1, live) && LiveKept(blocks1, blocks2, live + {d} - {b}) && b != d
    ensures LiveKept(blocks0, blocks2, live - {b}) && d in blocks1 && d in blocks2 && blocks2[d] == blocks1[d]
  {
  }

  lemma KeptAt(blocks0: map<int, nat>, blocks: map<int, nat>, live: set<int>, b: int)
    requires LiveKept(blocks0, blocks, live) && b in live
    ensures b in blocks0 && b in blocks && blocks[b] == blocks0[b]
  {
  }

  /** Every byte of a chunk after its header lies in exactly one block, which is either allocated or on
      the free list, but not both. */
  lemma EachByteOnce(word: map<int, int>, head: int, blocks: map<int, nat>, chunks: map<int, nat>, live: set<int>,
                     free: seq<int>, c: int, x: int)
    returns (d: int)
    requires HeapOk(word, head, blocks, chunks, live, free, {}) && c in chunks && c + CHUNK_HEADER <= x < c + chunks[c]
    ensures d in blocks && d <= x < d + blocks[d] && (d in live <==> d !in free)
    ensures forall e :: e in blocks && e <= x < e + blocks[e] ==> e == d
  {
    assert ChunkOk(blocks, chunks, c);
    var b := c + CHUNK_HEADER;
    var c2 := ChunkOf(blocks, chunks, b);
    assert ChunksApart(chunks, c, c2) && ChunksApart(chunks, c2, c);
    d := NoGap(blocks, chunks, c, b, x);
    NotYetFree(blocks, live, free, d);
    forall e | e in blocks && e <= x < e + blocks[e] ensures e == d {
      InOneBlock(blocks, chunks, d, e, x);
    }
  }

  lemma LiveKeptGrow(blocks: map<int, nat>, live: set<int>, b: int, n: nat)
    requires LiveKept(blocks, blocks, live) && b !in blocks
    ensures LiveKept(blocks, blocks[b := n], live)
  {
  }

  lemma LiveKeptTwice(blocks0: map<int, nat>, blocks1: map<int, nat>, blocks2: map<int, nat>, live: set<int>)
    requires LiveKept(blocks0, blocks1, live) && LiveKept(blocks1, blocks2, live)
    ensures LiveKept(blocks0, blocks2, live)
  {
  }

  lemma LiveKeptSplit(blocks: map<int, nat>, chunks: map<int, nat>, live: set<int>, free: seq<int>, k: int, r: nat)
    requires FreeOk(blocks, live, free, {}) && 0 <= k < |free| && free[k] in blocks && r <= blocks[free[k]]
    requires free[k] + r !in blocks
    ensures LiveKept(blocks, blocks[free[k] := r][free[k] + r := blocks[free[k]] - r], live)
  {
    assert FreeAt(blocks, live, free, {}, k);
  }
}
