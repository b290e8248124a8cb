/** Static objects: each static space is filled from its base with objects and holes, and the holes are
    on a circular, doubly linked list in order of address. Sizes and addresses are in bytes. */
module Statics {

  const SPACE_SIZE := 0x1000000

  /** The size of the header of a static object, and that of the first word of the object in it. */
  const STATIC_HEADER := 20
  const WORD_SIZE := 4

  /** The address that stands for the list head in the descriptor of a space. */
  const HEAD := 0

  function StaticAlign(n: nat): nat {
    (n + 15) / 16 * 16
  }

  /** The size of a static object with `bytes` user bytes. */
  function StaticSize(bytes: nat): (r: nat)
    requires bytes >= WORD_SIZE
    ensures r % 16 == 0 && bytes + 16 <= r < bytes + 32
  {
    StaticAlign(bytes - WORD_SIZE + STATIC_HEADER)
  }

  // ---- Layouts ----

  /** A stretch of a space: a hole or an object. */
  datatype Seg = Seg(size: nat, hole: bool)

  function Len(l: seq<Seg>): nat {
    if l == [] then 0 else l[0].size + Len(l[1..])
  }

  /** The bytes in holes. */
  function FreeBytes(l: seq<Seg>): nat {
    if l == [] then 0 else (if l[0].hole then l[0].size else 0) + FreeBytes(l[1..])
  }

  /** The addresses of the holes, if the layout begins at `a`. */
  function Holes(l: seq<Seg>, a: int): seq<int> {
    if l == [] then [] else (if l[0].hole then [a] else []) + Holes(l[1..], a + l[0].size)
  }

  /** The addresses and sizes of the objects. */
  function Objects(l: seq<Seg>, a: int): seq<(int, nat)> {
    if l == [] then [] else (if l[0].hole then [] else [(a, l[0].size)]) + Objects(l[1..], a + l[0].size)
  }

  /** The marks of the holes are their sizes. */
  ghost predicate Marked(mark: map<int, int>, l: seq<Seg>, a: int) {
    l == [] || ((l[0].hole ==> a in mark && mark[a] == l[0].size) && Marked(mark, l[1..], a + l[0].size))
  }

  ghost predicate SegOk(s: Seg) {
    s.size > 0 && s.size % 16 == 0
  }

  ghost predicate SegsOk(l: seq<Seg>) {
    forall i :: 0 <= i < |l| ==> SegOk(l[i])
  }

  /** No two holes touch. */
  ghost predicate Coalesced(l: seq<Seg>) {
    forall i, j :: 0 <= i < |l| && j == i + 1 && j < |l| ==> !(l[i].hole && l[j].hole)
  }

  lemma {:induction false} LenAppend(l: seq<Seg>, m: seq<Seg>)
    ensures Len(l + m) == Len(l) + Len(m)
  {
    if l == [] {
      assert l + m == m;
    } else {
      LenAppend(l[1..], m);
      assert (l + m)[0] == l[0] && (l + m)[1..] == l[1..] + m;
    }
  }

  lemma {:induction false} FreeAppend(l: seq<Seg>, m: seq<Seg>)
    ensures FreeBytes(l + m) == FreeBytes(l) + FreeBytes(m)
  {
    if l == [] {
      assert l + m == m;
    } else {
      FreeAppend(l[1..], m);
      assert (l + m)[0] == l[0] && (l + m)[1..] == l[1..] + m;
    }
  }

  lemma HolesCons(s: Seg, l: seq<Seg>, a: int)
    ensures Holes([s] + l, a) == (if s.hole then [a] else []) + Holes(l, a + s.size) && Len([s] + l) == s.size + Len(l)
  {
    assert ([s] + l)[1..] == l;
  }

  lemma {:induction false} HolesAppend(l: seq<Seg>, m: seq<Seg>, a: int)
    ensures Holes(l + m, a) == Holes(l, a) + Holes(m, a + Len(l))
    decreases |l|, 1
  {
    if l == [] {
      assert l + m == m;
      Nothing(Holes(m, a));
    } else {
      var s, t := l[0], l[1..];
      assert l == [s] + t && l + m == [s] + (t + m);
      HolesTurn(s, t, m, a);
    }
  }

  lemma {:induction false} HolesTurn(s: Seg, t: seq<Seg>, m: seq<Seg>, a: int)
    ensures Holes([s] + (t + m), a) == Holes([s] + t, a) + Holes(m, a + Len([s] + t))
    decreases |t| + 1, 0
  {
    hide Holes, Len;
    HolesAppend(t, m, a + s.size);
    HolesCons(s, t + m, a);
    HolesCons(s, t, a);
    Regroup((if s.hole then [a] else []), Holes(t, a + s.size), Holes(m, a + s.size + Len(t)));
  }

  lemma ObjectsCons(s: Seg, l: seq<Seg>, a: int)
    ensures Objects([s] + l, a) == (if s.hole then [] else [(a, s.size)]) + Objects(l, a + s.size)
    ensures Len([s] + l) == s.size + Len(l)
  {
    assert ([s] + l)[1..] == l;
  }

  lemma {:induction false} ObjectsAppend(l: seq<Seg>, m: seq<Seg>, a: int)
    ensures Objects(l + m, a) == Objects(l, a) + Objects(m, a + Len(l))
    decreases |l|, 1
  {
    if l == [] {
      assert l + m == m;
      Nothing(Objects(m, a));
    } else {
      var s, t := l[0], l[1..];
      assert l == [s] + t && l + m == [s] + (t + m);
      ObjectsTurn(s, t, m, a);
    }
  }

  lemma {:induction false} ObjectsTurn(s: Seg, t: seq<Seg>, m: seq<Seg>, a: int)
    ensures Objects([s] + (t + m), a) == Objects([s] + t, a) + Objects(m, a + Len([s] + t))
    decreases |t| + 1, 0
  {
    hide Objects, Len;
    ObjectsAppend(t, m, a + s.size);
    ObjectsCons(s, t + m, a);
    ObjectsCons(s, t, a);
    Regroup((if s.hole then [] else [(a, s.size)]), Objects(t, a + s.size), Objects(m, a + s.size + Len(t)));
  }

  lemma Nothing<T>(s: seq<T>)
    ensures [] + s == s
  {
  }

  lemma Regroup<T>(s: seq<T>, t: seq<T>, u: seq<T>)
    ensures s + (t + u) == (s + t) + u
  {
  }

  lemma {:induction false} AppendMarked(mark: map<int, int>, l: seq<Seg>, m: seq<Seg>, a: int)
    ensures Marked(mark, l + m, a) <==> Marked(mark, l, a) && Marked(mark, m, a + Len(l))
  {
    if l == [] {
      assert l + m == m;
    } else {
      AppendMarked(mark, l[1..], m, a + l[0].size);
      assert (l + m)[0] == l[0] && (l + m)[1..] == l[1..] + m;
    }
  }

  /** Marks at other addresses do not matter. */
  lemma {:induction false} OtherMarks(mark: map<int, int>, mark1: map<int, int>, l: seq<Seg>, a: int)
    requires Marked(mark, l, a) && SegsOk(l)
    requires forall x :: a <= x < a + Len(l) && x in mark ==> x in mark1 && mark1[x] == mark[x]
    ensures Marked(mark1, l, a)
  {
    if l != [] {
      assert SegOk(l[0]);
      SegsTail(l);
      OtherMarks(mark, mark1, l[1..], a + l[0].size);
    }
  }

  lemma SegsTail(l: seq<Seg>)
    requires SegsOk(l) && l != []
    ensures SegsOk(l[1..])
  {
  }

  lemma {:induction false} HolesIn(l: seq<Seg>, a: int)
    requires SegsOk(l)
    ensures forall i :: 0 <= i < |Holes(l, a)| ==> a <= Holes(l, a)[i] < a + Len(l)
    ensures forall i, j :: 0 <= i < j < |Holes(l, a)| ==> Holes(l, a)[i] < Holes(l, a)[j]
  {
    if l != [] {
      assert SegOk(l[0]);
      SegsTail(l);
      HolesIn(l[1..], a + l[0].size);
    }
  }

  /** The `k`th hole, with what is before and after it. */
  lemma {:induction false} HoleAt(l: seq<Seg>, a: int, k: int) returns (pre: seq<Seg>, s: Seg, post: seq<Seg>)
    requires 0 <= k < |Holes(l, a)|
    ensures l == pre + [s] + post && s.hole && |Holes(pre, a)| == k && Holes(l, a)[k] == a + Len(pre)
  {
    if l[0].hole && k == 0 {
      pre, s, post := [], l[0], l[1..];
    } else {
      var k1 := if l[0].hole then k - 1 else k;
      pre, s, post := HoleAt(l[1..], a + l[0].size, k1);
      var pre0 := pre;
      pre := [l[0]] + pre0;
      assert pre[0] == l[0] && pre[1..] == pre0;
      assert l == [l[0]] + l[1..];
    }
  }

  /** The object at `x`, with what is before and after it. */
  lemma {:induction false} ObjectAt(l: seq<Seg>, a: int, x: int, n: nat) returns (pre: seq<Seg>, post: seq<Seg>)
    requires (x, n) in Objects(l, a)
    ensures l == pre + [Seg(n, false)] + post && x == a + Len(pre)
  {
    if !l[0].hole && (x, n) == (a, l[0].size) {
      pre, post := [], l[1..];
    } else {
      var pre0;
      pre0, post := ObjectAt(l[1..], a + l[0].size, x, n);
      pre := [l[0]] + pre0;
      assert pre[0] == l[0] && pre[1..] == pre0;
      assert l == [l[0]] + l[1..];
    }
  }

  /** The first hole of a layout is at its beginning if and only if the layout begins with a hole. */
  lemma {:induction false} FirstHole(l: seq<Seg>, a: int)
    requires SegsOk(l)
    ensures Holes(l, a) != [] ==> (Holes(l, a)[0] == a <==> l[0].hole)
    ensures l != [] && l[0].hole ==> Holes(l, a) != []
  {
    if l != [] {
      assert SegOk(l[0]);
      SegsTail(l);
      HolesIn(l[1..], a + l[0].size);
    }
  }

  /** The last hole of a layout ends at its end if and only if the layout ends with a hole. */
  lemma {:induction false} LastHole(l: seq<Seg>, a: int, mark: map<int, int>)
    requires SegsOk(l) && Marked(mark, l, a) && Holes(l, a) != []
    ensures var h := Holes(l, a)[|Holes(l, a)| - 1];
            h in mark && h + mark[h] <= a + Len(l) && (h + mark[h] == a + Len(l) <==> l[|l| - 1].hole)
    ensures l[|l| - 1].hole ==> Holes(l, a)[|Holes(l, a)| - 1] == a + Len(l) - l[|l| - 1].size
  {
    var hs := Holes(l, a);
    assert SegOk(l[0]);
    SegsTail(l);
    if Holes(l[1..], a + l[0].size) != [] {
      LastHole(l[1..], a + l[0].size, mark);
      assert hs[|hs| - 1] == Holes(l[1..], a + l[0].size)[|Holes(l[1..], a + l[0].size)| - 1];
      assert l[|l| - 1] == l[1..][|l| - 2];
    } else {
      assert hs == [a];
      NoHoles(l[1..], a + l[0].size);
    }
  }

  lemma {:induction false} NoHoles(l: seq<Seg>, a: int)
    requires SegsOk(l) && Holes(l, a) == []
    ensures (l == [] || Len(l) > 0) && forall i :: 0 <= i < |l| ==> !l[i].hole
  {
    if l != [] {
      assert SegOk(l[0]);
      SegsTail(l);
      NoHoles(l[1..], a + l[0].size);
      assert forall i :: 0 < i < |l| ==> l[i] == l[1..][i - 1];
    }
  }

  lemma {:induction false} HoleFits(l: seq<Seg>, i: int)
    requires 0 <= i < |l| && l[i].hole
    ensures l[i].size <= FreeBytes(l)
  {
    if i > 0 {
      HoleFits(l[1..], i - 1);
    }
  }

  // ---- The ring of holes ----

  function Link(hs: seq<int>, i: int): int {
    if 0 <= i < |hs| then hs[i] else HEAD
  }

  ghost predicate RingAt(hs: seq<int>, forward: map<int, int>, back: map<int, int>, i: int) {
    var before, after := Link(hs, i - 1), Link(hs, i);
    before in forward && after in back && forward[before] == after && back[after] == before
  }

  ghost predicate Ring(hs: seq<int>, forward: map<int, int>, back: map<int, int>) {
    forall i {:trigger RingAt(hs, forward, back, i)} :: 0 <= i <= |hs| ==> RingAt(hs, forward, back, i)
  }

  /** Different holes have different addresses, and none is the list head. */
  ghost predicate Nodes(hs: seq<int>) {
    (forall i :: 0 <= i < |hs| ==> hs[i] != HEAD) && forall i, j :: 0 <= i < j < |hs| ==> hs[i] != hs[j]
  }

  /** Taking out the node at position `k`. */
  lemma RingRemove(hs: seq<int>, forward: map<int, int>, back: map<int, int>, k: int)
    requires Ring(hs, forward, back) && Nodes(hs) && 0 <= k < |hs|
    ensures var before, after := Link(hs, k - 1), Link(hs, k + 1);
            Ring(hs[..k] + hs[k + 1..], forward[before := after], back[after := before])
  {
    var hs1, before, after := hs[..k] + hs[k + 1..], Link(hs, k - 1), Link(hs, k + 1);
    var forward1, back1 := forward[before := after], back[after := before];
    forall i {:trigger RingAt(hs1, forward1, back1, i)} | 0 <= i <= |hs1| ensures RingAt(hs1, forward1, back1, i) {
      assert RingAt(hs, forward, back, if i < k then i else i + 1);
    }
  }

  /** Putting the node `x` in at position `k`. */
  lemma RingInsert(hs: seq<int>, forward: map<int, int>, back: map<int, int>, k: int, x: int)
    requires Ring(hs, forward, back) && Nodes(hs) && 0 <= k <= |hs| && x != HEAD && x !in hs
    ensures var before, after := Link(hs, k - 1), Link(hs, k);
            Ring(hs[..k] + [x] + hs[k..], forward[x := after][before := x], back[x := before][after := x])
  {
    var hs1, before, after := hs[..k] + [x] + hs[k..], Link(hs, k - 1), Link(hs, k);
    var forward1, back1 := forward[x := after][before := x], back[x := before][after := x];
    forall i {:trigger RingAt(hs1, forward1, back1, i)} | 0 <= i <= |hs1| ensures RingAt(hs1, forward1, back1, i) {
      if i < k {
        assert RingAt(hs, forward, back, i);
      } else if i > k + 1 {
        assert RingAt(hs, forward, back, i - 1);
      }
    }
  }

  /** Putting the node `x` in the place of the one at position `k`. */
  lemma RingReplace(hs: seq<int>, forward: map<int, int>, back: map<int, int>, k: int, x: int)
    requires Ring(hs, forward, back) && Nodes(hs) && 0 <= k < |hs| && x != HEAD && x !in hs
    ensures var before, after := Link(hs, k - 1), Link(hs, k + 1);
            Ring(hs[k := x], forward[x := after][before := x], back[x := before][after := x])
  {
    var hs1, before, after := hs[k := x], Link(hs, k - 1), Link(hs, k + 1);
    var forward1, back1 := forward[x := after][before := x], back[x := before][after := x];
    forall i {:trigger RingAt(hs1, forward1, back1, i)} | 0 <= i <= |hs1| ensures RingAt(hs1, forward1, back1, i) {
      assert RingAt(hs, forward, back, i);
    }
  }

  /** The links of a node that is not on the ring do not matter. */
  lemma RingExtra(hs: seq<int>, forward: map<int, int>, back: map<int, int>, x: int, v: int)
    requires Ring(hs, forward, back) && x != HEAD && x !in hs
    ensures Ring(hs, forward[x := v], back)
  {
    forall i {:trigger RingAt(hs, forward[x := v], back, i)} | 0 <= i <= |hs|
      ensures RingAt(hs, forward[x := v], back, i)
    {
      assert RingAt(hs, forward, back, i);
    }
  }

  // ---- A space ----

  /** The descriptor of a static space, and the links and marks of the holes in it. */
  datatype Space = Space(base: int, mapped: nat, free: nat, forward: map<int, int>, back: map<int, int>,
    mark: map<int, int>)

  /** The space is laid out as `l` says, and the list of holes is in order. */
  ghost predicate SpaceOk(sp: Space, l: seq<Seg>) {
    && 0 < sp.base && sp.mapped == Len(l) <= SPACE_SIZE && SegsOk(l) && Coalesced(l)
    && Ring(Holes(l, sp.base), sp.forward, sp.back) && Marked(sp.mark, l, sp.base) && HEAD in sp.mark
    && sp.mark[HEAD] == 0
    && sp.free == FreeBytes(l)
  }

  /** The ring holds the holes in strictly ascending order. */
  lemma HoleNodes(l: seq<Seg>, a: int)
    requires SegsOk(l) && 0 < a
    ensures Nodes(Holes(l, a))
  {
    HolesIn(l, a);
  }

  lemma SegsParts(pre: seq<Seg>, s: Seg, post: seq<Seg>)
    ensures SegsOk(pre + [s] + post) <==> SegsOk(pre) && SegOk(s) && SegsOk(post)
  {
    var l := pre + [s] + post;
    if SegsOk(l) {
      forall i | 0 <= i < |pre| ensures SegOk(pre[i]) {
        assert l[i] == pre[i] && SegOk(l[i]);
      }
      forall i | 0 <= i < |post| ensures SegOk(post[i]) {
        assert l[|pre| + 1 + i] == post[i] && SegOk(l[|pre| + 1 + i]);
      }
      assert SegOk(l[|pre|]);
    }
  }

  /** Everything about a layout, from its parts around one stretch. */
  lemma Parts(pre: seq<Seg>, s: Seg, post: seq<Seg>, a: int, mark: map<int, int>)
    ensures var l, x := pre + [s] + post, a + Len(pre);
            Len(l) == Len(pre) + s.size + Len(post) &&
            FreeBytes(l) == FreeBytes(pre) + (if s.hole then s.size else 0) + FreeBytes(post) &&
            Holes(l, a) == Holes(pre, a) + ((if s.hole then [x] else []) + Holes(post, x + s.size)) &&
            Objects(l, a) == Objects(pre, a) + ((if s.hole then [] else [(x, s.size)]) + Objects(post, x + s.size)) &&
            (Marked(mark, l, a) <==>
             Marked(mark, pre, a) && (s.hole ==> x in mark && mark[x] == s.size) && Marked(mark, post, x + s.size))
  {
    var m := [s] + post;
    assert pre + [s] + post == pre + m && m[0] == s && m[1..] == post;
    LenAppend(pre, m);
    FreeAppend(pre, m);
    HolesAppend(pre, m, a);
    ObjectsAppend(pre, m, a);
    AppendMarked(mark, pre, m, a);
  }

  // ---- Taking space from a hole ----

  /** What is left of a hole of `n` bytes, and the object at its end. */
  function Carved(n: nat, size: nat): seq<Seg>
    requires size <= n
  {
    (if n == size then [] else [Seg(n - size, true)]) + [Seg(size, false)]
  }

  /** No hole has `size` bytes. */
  ghost predicate NoFit(l: seq<Seg>, size: nat) {
    forall i :: 0 <= i < |l| && l[i].hole ==> l[i].size < size
  }

  /** The `size` bytes at `stat` are the end of the first hole of the space at `base` that has as many. */
  ghost predicate InFirstHole(l: seq<Seg>, base: int, stat: int, size: nat) {
    exists k :: 0 <= k < |l| && l[k].hole && size <= l[k].size && NoFit(l[..k], size) &&
      stat == base + Len(l[..k]) + l[k].size - size
  }

  lemma TheFirst(l: seq<Seg>, pre: seq<Seg>, n: nat, post: seq<Seg>, base: int, stat: int, size: nat)
    requires l == pre + [Seg(n, true)] + post && size <= n && NoFit(pre, size) && stat == base + Len(pre) + n - size
    ensures InFirstHole(l, base, stat, size)
  {
    assert l[..|pre|] == pre && l[|pre|] == Seg(n, true);
  }

  lemma {:induction false} AllTooSmall(l: seq<Seg>, a: int, mark: map<int, int>, size: nat)
    requires SegsOk(l) && Marked(mark, l, a)
    requires forall k :: 0 <= k < |Holes(l, a)| ==> Holes(l, a)[k] in mark && mark[Holes(l, a)[k]] < size
    ensures NoFit(l, size)
  {
    if l != [] {
      SegsTail(l);
      var hs, hs1 := Holes(l, a), Holes(l[1..], a + l[0].size);
      forall k | 0 <= k < |hs1| ensures hs1[k] in mark && mark[hs1[k]] < size {
        assert hs1[k] == hs[if l[0].hole then k + 1 else k];
      }
      AllTooSmall(l[1..], a + l[0].size, mark, size);
      if l[0].hole {
        assert hs[0] == a;
      }
      forall i | 0 <= i < |l| && l[i].hole ensures l[i].size < size {
        if i > 0 {
          assert l[i] == l[1..][i - 1];
        }
      }
    }
  }

  lemma FewFree(l: seq<Seg>, size: nat)
    requires FreeBytes(l) < size
    ensures NoFit(l, size)
  {
    forall i | 0 <= i < |l| && l[i].hole ensures l[i].size < size {
      HoleFits(l, i);
    }
  }

  /** Taking a whole hole. */
  lemma CarveAll(sp: Space, pre: seq<Seg>, post: seq<Seg>, size: nat, k: int)
    requires SpaceOk(sp, pre + [Seg(size, true)] + post) && k == |Holes(pre, sp.base)|
    ensures var hs, x := Holes(pre + [Seg(size, true)] + post, sp.base), sp.base + Len(pre);
            var before, after := Link(hs, k - 1), Link(hs, k + 1);
            size <= sp.free && k < |hs| && hs[k] == x &&
            SpaceOk(sp.(free := sp.free - size, forward := sp.forward[before := after],
              back := sp.back[after := before], mark := sp.mark[x := 0]), pre + [Seg(size, false)] + post)
  {
    hide Ring, Marked;
    var l, l1, x := pre + [Seg(size, true)] + post, pre + [Seg(size, false)] + post, sp.base + Len(pre);
    var hs := Holes(l, sp.base);
    Parts(pre, Seg(size, true), post, sp.base, sp.mark);
    SegsParts(pre, Seg(size, true), post);
    SegsParts(pre, Seg(size, false), post);
    Parts(pre, Seg(size, false), post, sp.base, sp.mark[x := 0]);
    OtherMarks(sp.mark, sp.mark[x := 0], pre, sp.base);
    OtherMarks(sp.mark, sp.mark[x := 0], post, x + size);
    HoleNodes(l, sp.base);
    RingRemove(hs, sp.forward, sp.back, k);
    assert Holes(l1, sp.base) == hs[..k] + hs[k + 1..];
    assert forall i :: 0 <= i < |l1| && l1[i].hole ==> l[i].hole;
  }

  /** The layout after an object of `size` bytes has been cut from a hole of `rest + size` bytes. */
  lemma CarvedParts(pre: seq<Seg>, rest: nat, size: nat, post: seq<Seg>, a: int, mark: map<int, int>)
    ensures var l, l1 := pre + [Seg(rest + size, true)] + post, pre + [Seg(rest, true)] + ([Seg(size, false)] + post);
            Len(l1) == Len(l) && FreeBytes(l1) == FreeBytes(l) - size && Holes(l1, a) == Holes(l, a) &&
            (SegsOk(l) && SegOk(Seg(rest, true)) && SegOk(Seg(size, false)) ==> SegsOk(l1)) &&
            ((Marked(mark, pre, a) && a + Len(pre) in mark && mark[a + Len(pre)] == rest &&
              Marked(mark, post, a + Len(pre) + (rest + size))) ==> Marked(mark, l1, a))
  {
    hide Marked, Holes, Objects, FreeBytes, Len, SegsOk, SegOk;
    var post1, x := [Seg(size, false)] + post, a + Len(pre);
    Parts(pre, Seg(rest + size, true), post, a, mark);
    Parts(pre, Seg(rest, true), post1, a, mark);
    assert x + (rest + size) == x + rest + size;
    ObjectFirst(size, post, x + rest, mark);
    SegsParts(pre, Seg(rest + size, true), post);
    SegsParts(pre, Seg(rest, true), post1);
  }

  lemma CarvedMarks(pre: seq<Seg>, rest: nat, size: nat, post: seq<Seg>, a: int, mark: map<int, int>)
    requires Marked(mark, pre + [Seg(rest + size, true)] + post, a) && SegsOk(pre + [Seg(rest + size, true)] + post)
    requires size > 0 && rest > 0
    ensures var x := a + Len(pre); var mark1 := mark[x := rest][x + rest := 0];
            Marked(mark1, pre, a) && Marked(mark1, post, x + (rest + size))
  {
    hide Marked, Holes, Objects, FreeBytes, Len, SegsOk, SegOk;
    var x := a + Len(pre);
    Parts(pre, Seg(rest + size, true), post, a, mark);
    SegsParts(pre, Seg(rest + size, true), post);
    OtherMarks(mark, mark[x := rest][x + rest := 0], pre, a);
    OtherMarks(mark, mark[x := rest][x + rest := 0], post, x + (rest + size));
  }

  /** Taking the end of a hole. */
  lemma CarveEnd(sp: Space, pre: seq<Seg>, rest: nat, size: nat, post: seq<Seg>)
    requires SpaceOk(sp, pre + [Seg(rest + size, true)] + post) && SegOk(Seg(rest, true)) && SegOk(Seg(size, false))
    ensures var x := sp.base + Len(pre);
            size <= sp.free &&
            SpaceOk(sp.(free := sp.free - size, mark := sp.mark[x := rest][x + rest := 0]),
              pre + [Seg(rest, true)] + ([Seg(size, false)] + post))
  {
    hide SpaceOk, Marked, Coalesced, Holes, Objects, FreeBytes, Len, SegsOk, SegOk;
    var l, l1 := pre + [Seg(rest + size, true)] + post, pre + [Seg(rest, true)] + ([Seg(size, false)] + post);
    Known(sp, l);
    PositiveSize(rest);
    PositiveSize(size);
    Parts(pre, Seg(rest + size, true), post, sp.base, sp.mark);
    var x := sp.base + Len(pre);
    var mark1 := sp.mark[x := rest][x + rest := 0];
    CarvedParts(pre, rest, size, post, sp.base, mark1);
    CarvedMarks(pre, rest, size, post, sp.base, sp.mark);
    CarvedApart(pre, rest, size, post);
    SameHoles(sp, l, sp.free - size, mark1, l1);
  }

  lemma PositiveSize(n: nat)
    ensures SegOk(Seg(n, true)) || SegOk(Seg(n, false)) ==> n > 0
  {
  }

  lemma Known(sp: Space, l: seq<Seg>)
    requires SpaceOk(sp, l)
    ensures 0 < sp.base && sp.mapped == Len(l) <= SPACE_SIZE && SegsOk(l) && Coalesced(l) && Marked(sp.mark, l, sp.base)
    ensures HEAD in sp.mark && sp.mark[HEAD] == 0 && sp.free == FreeBytes(l)
  {
  }

  lemma SameHoles(sp: Space, l: seq<Seg>, free1: nat, mark1: map<int, int>, l1: seq<Seg>)
    requires SpaceOk(sp, l) && Len(l1) == Len(l) && SegsOk(l1) && Coalesced(l1)
    requires Holes(l1, sp.base) == Holes(l, sp.base)
    requires Marked(mark1, l1, sp.base) && HEAD in mark1 && mark1[HEAD] == 0 && free1 == FreeBytes(l1)
    ensures SpaceOk(sp.(free := free1, mark := mark1), l1)
  {
  }

  lemma CutHole(sp: Space, pre: seq<Seg>, n: nat, post: seq<Seg>, size: nat)
    requires SpaceOk(sp, pre + [Seg(n, true)] + post) && 0 < size < n && size % 16 == 0
    ensures SegOk(Seg(n - size, true)) && SegOk(Seg(size, false))
  {
    SegsParts(pre, Seg(n, true), post);
  }

  lemma CarvedApart(pre: seq<Seg>, rest: nat, size: nat, post: seq<Seg>)
    requires Coalesced(pre + [Seg(rest + size, true)] + post)
    ensures Coalesced(pre + [Seg(rest, true)] + ([Seg(size, false)] + post))
  {
    var l, l1 := pre + [Seg(rest + size, true)] + post, pre + [Seg(rest, true)] + ([Seg(size, false)] + post);
    assert !l1[|pre| + 1].hole;
    forall i, j | 0 <= i < |l1| && j == i + 1 && j < |l1| ensures !(l1[i].hole && l1[j].hole) {
      if j <= |pre| {
        assert l1[i].hole == l[i].hole && l1[j].hole == l[j].hole;
      } else if i > |pre| + 1 {
        assert l1[i] == l[i - 1] && l1[j] == l[j - 1];
      }
    }
  }

  lemma CarvedShape(pre: seq<Seg>, n: nat, post: seq<Seg>, size: nat)
    requires size <= n
    ensures pre + Carved(n, size) + post == if n == size then pre + [Seg(size, false)] + post
            else pre + [Seg(n - size, true)] + ([Seg(size, false)] + post)
  {
  }

  /** The holes before the one that was found are too small. */
  lemma EarlierTooSmall(sp: Space, l: seq<Seg>, pre: seq<Seg>, s: Seg, post: seq<Seg>, size: nat)
    requires SpaceOk(sp, l) && l == pre + [s] + post
    requires forall i :: 0 <= i < |Holes(pre, sp.base)| ==>
             Link(Holes(l, sp.base), i) in sp.mark && sp.mark[Link(Holes(l, sp.base), i)] < size
    ensures NoFit(pre, size)
  {
    Parts(pre, s, post, sp.base, sp.mark);
    SegsParts(pre, s, post);
    var hs := Holes(pre, sp.base);
    assert forall i :: 0 <= i < |hs| ==> hs[i] == Link(Holes(l, sp.base), i);
    AllTooSmall(pre, sp.base, sp.mark, size);
  }

  lemma ObjectFirst(size: nat, post: seq<Seg>, a: int, mark: map<int, int>)
    ensures var l := [Seg(size, false)] + post;
            Len(l) == size + Len(post) && FreeBytes(l) == FreeBytes(post) && Holes(l, a) == Holes(post, a + size) &&
            (Marked(mark, post, a + size) ==> Marked(mark, l, a)) &&
            (SegsOk(post) && SegOk(Seg(size, false)) ==> SegsOk(l))
  {
    assert ([Seg(size, false)] + post)[1..] == post;
    Nothing(Holes(post, a + size));
  }

  /** Looks in a space for the first hole that is large enough, and takes the end of it. */
  method TakeHole(sp: Space, size: nat, ghost l: seq<Seg>)
    returns (found: bool, sp1: Space, addr: int, ghost pre: seq<Seg>, ghost n: nat, ghost post: seq<Seg>)
    requires SpaceOk(sp, l) && 0 < size && size % 16 == 0
    ensures sp1.base == sp.base && sp1.mapped == sp.mapped
    ensures !found ==> sp1 == sp && NoFit(l, size)
    ensures found ==>
            size <= n && l == pre + [Seg(n, true)] + post && NoFit(pre, size) &&
            SpaceOk(sp1, pre + Carved(n, size) + post) && addr == sp.base + Len(pre) + n - size
  {
    hide SpaceOk, Marked, SegsOk, Coalesced, NoFit, Holes, FreeBytes, Len;
    Known(sp, l);
    found, sp1, addr, pre, n, post := false, sp, HEAD, [], 0, [];
    if size <= sp.free {
      ghost var hs, k := Holes(l, sp.base), 0;
      RingStep(sp, l, 0);
      HoleNodes(l, sp.base);
      var result := sp.forward[HEAD];
      while result != HEAD
        invariant 0 <= k <= |hs| && result == Link(hs, k)
        invariant forall i :: 0 <= i < k ==> hs[i] in sp.mark && sp.mark[hs[i]] < size
        decreases |hs| - k
      {
        RingStep(sp, l, k + 1);
        ghost var s;
        pre, s, post := HoleAt(l, sp.base, k);
        n := s.size;
        Parts(pre, s, post, sp.base, sp.mark);
        if size <= sp.mark[result] {
          found := true;
          EarlierTooSmall(sp, l, pre, s, post, size);
          CarvedShape(pre, n, post, size);
          if size == sp.mark[result] {
            CarveAll(sp, pre, post, size, k);
            RingBack(sp, l, k);
            sp1 := sp1.(free := sp.free - size);
            sp1 := sp1.(forward := sp1.forward[sp1.back[result] := sp1.forward[result]]);
            sp1 := sp1.(back := sp1.back[sp1.forward[result] := sp1.back[result]]);
            sp1 := sp1.(mark := sp1.mark[result := 0]);
            addr := result;
          } else {
            CutHole(sp, pre, n, post, size);
            CarveEnd(sp, pre, n - size, size, post);
            sp1 := sp1.(free := sp.free - size, mark := sp1.mark[result := sp1.mark[result] - size]);
            addr := result + sp1.mark[result];
            sp1 := sp1.(mark := sp1.mark[addr := 0]);
          }
          return;
        }
        result := sp.forward[result];
        k := k + 1;
      }
      AllTooSmall(l, sp.base, sp.mark, size);
    } else {
      FewFree(l, size);
    }
  }

  lemma RingStep(sp: Space, l: seq<Seg>, k: int)
    requires SpaceOk(sp, l) && 0 <= k <= |Holes(l, sp.base)|
    ensures var hs := Holes(l, sp.base); Link(hs, k - 1) in sp.forward && sp.forward[Link(hs, k - 1)] == Link(hs, k)
  {
    assert RingAt(Holes(l, sp.base), sp.forward, sp.back, k);
  }

  lemma RingBack(sp: Space, l: seq<Seg>, k: int)
    requires SpaceOk(sp, l) && 0 <= k <= |Holes(l, sp.base)|
    ensures var hs := Holes(l, sp.base); Link(hs, k) in sp.back && sp.back[Link(hs, k)] == Link(hs, k - 1)
  {
    assert RingAt(Holes(l, sp.base), sp.forward, sp.back, k);
  }

  // ---- Giving space back ----

  predicate BeginsHole(l: seq<Seg>) {
    l != [] && l[0].hole
  }

  predicate EndsHole(l: seq<Seg>) {
    l != [] && l[|l| - 1].hole
  }

  /** Joining the stretches `mid` to one hole. */
  lemma Filled(pre: seq<Seg>, mid: seq<Seg>, post: seq<Seg>, n: nat, a: int, mark: map<int, int>, mark1: map<int, int>)
    requires SegsOk(pre + mid + post) && Marked(mark, pre + mid + post, a) && mid != [] && n == Len(mid)
    requires var x := a + Len(pre);
             x in mark1 && mark1[x] == n && forall y :: y in mark && (y < x || x + n <= y) ==>
             y in mark1 && mark1[y] == mark[y]
    ensures var l, l1, x := pre + mid + post, pre + [Seg(n, true)] + post, a + Len(pre);
            Len(l1) == Len(l) && FreeBytes(l1) + FreeBytes(mid) == FreeBytes(l) + n && SegsOk(l1) &&
              Marked(mark1, l1, a) &&
            Holes(l, a) == Holes(pre, a) + (Holes(mid, x) + Holes(post, x + n)) &&
              Holes(l1, a) == Holes(pre, a) + ([x] + Holes(post, x + n)) &&
            Objects(l, a) == Objects(pre, a) + (Objects(mid, x) + Objects(post, x + n)) &&
              Objects(l1, a) == Objects(pre, a) + Objects(post, x + n)
  {
    hide Marked, Holes, Objects, FreeBytes, Len;
    var x := a + Len(pre);
    assert pre + mid + post == pre + (mid + post);
    LenAppend(mid, post);
    LenAppend(pre, mid + post);
    FreeAppend(mid, post);
    FreeAppend(pre, mid + post);
    HolesAppend(mid, post, x);
    HolesAppend(pre, mid + post, a);
    ObjectsAppend(mid, post, x);
    ObjectsAppend(pre, mid + post, a);
    AppendMarked(mark, mid, post, x);
    AppendMarked(mark, pre, mid + post, a);
    Middle(pre, mid, post);
    Parts(pre, Seg(n, true), post, a, mark1);
    Nothing(Objects(post, x + n));
    LenOk(mid);
    SegsParts(pre, Seg(n, true), post);
    OtherMarks(mark, mark1, pre, a);
    OtherMarks(mark, mark1, post, x + n);
  }

  lemma Middle(pre: seq<Seg>, mid: seq<Seg>, post: seq<Seg>)
    requires SegsOk(pre + mid + post)
    ensures SegsOk(pre) && SegsOk(mid) && SegsOk(post)
  {
    var l := pre + mid + post;
    forall i | 0 <= i < |pre| ensures SegOk(pre[i]) {
      assert l[i] == pre[i] && SegOk(l[i]);
    }
    forall i | 0 <= i < |mid| ensures SegOk(mid[i]) {
      assert l[|pre| + i] == mid[i] && SegOk(l[|pre| + i]);
    }
    forall i | 0 <= i < |post| ensures SegOk(post[i]) {
      assert l[|pre| + |mid| + i] == post[i] && SegOk(l[|pre| + |mid| + i]);
    }
  }

  lemma {:induction false} LenOk(l: seq<Seg>)
    requires SegsOk(l) && l != []
    ensures SegOk(Seg(Len(l), true))
  {
    assert SegOk(l[0]);
    if |l| > 1 {
      SegsTail(l);
      LenOk(l[1..]);
    }
  }

  /** The layout after an object has been freed: the hole that it leaves is joined with those it touches. */
  function Before(pre: seq<Seg>): seq<Seg> {
    if EndsHole(pre) then pre[..|pre| - 1] else pre
  }

  function After(post: seq<Seg>): seq<Seg> {
    if BeginsHole(post) then post[1..] else post
  }

  /** The holes that it touches. */
  function Lead(pre: seq<Seg>): seq<Seg> {
    if EndsHole(pre) then [pre[|pre| - 1]] else []
  }

  function Trail(post: seq<Seg>): seq<Seg> {
    if BeginsHole(post) then [post[0]] else []
  }

  function Joined(pre: seq<Seg>, size: nat, post: seq<Seg>): seq<Seg> {
    Lead(pre) + [Seg(size, false)] + Trail(post)
  }

  function Freed(pre: seq<Seg>, size: nat, post: seq<Seg>): seq<Seg> {
    Before(pre) + [Seg(Len(Joined(pre, size, post)), true)] + After(post)
  }

  lemma FreedApart(pre: seq<Seg>, size: nat, post: seq<Seg>)
    requires Coalesced(pre + [Seg(size, false)] + post)
    ensures Coalesced(Freed(pre, size, post))
  {
    var l, l1, b := pre + [Seg(size, false)] + post, Freed(pre, size, post), |Before(pre)|;
    var d := |l| - |l1|;
    forall i, j | 0 <= i < |l1| && j == i + 1 && j < |l1| ensures !(l1[i].hole && l1[j].hole) {
      if j <= b {
        assert l1[i] == l[i];
        if j == b {
          assert EndsHole(pre) ==> l[b].hole && l[i + 1] == l[b];
        } else {
          assert l1[j] == l[j];
        }
      } else {
        assert l1[j] == l[j + d];
        if i > b {
          assert l1[i] == l[i + d];
        } else {
          assert BeginsHole(post) ==> l[|pre| + 1].hole && l[j + d] == l[|pre| + 2];
        }
      }
    }
  }

  /** The holes before a stretch and those after it. */
  lemma HolesAround(l: seq<Seg>, pre: seq<Seg>, size: nat, post: seq<Seg>, a: int, mark: map<int, int>)
    requires SegsOk(l) && l == pre + [Seg(size, false)] + post && Marked(mark, l, a)
    ensures var stat := a + Len(pre); Holes(l, a) == Holes(pre, a) + Holes(post, stat + size)
    ensures SegsOk(pre) && SegsOk(post) && SegOk(Seg(size, false)) && size > 0 && Marked(mark, pre, a)
    ensures forall i :: 0 <= i < |Holes(pre, a)| ==> Holes(pre, a)[i] < a + Len(pre)
    ensures var hq, stat := Holes(post, a + Len(pre) + size), a + Len(pre); forall i :: 0 <= i < |hq| ==> stat < hq[i]
  {
    hide Marked, Holes, Objects, FreeBytes, Len;
    var stat := a + Len(pre);
    Parts(pre, Seg(size, false), post, a, mark);
    Nothing(Holes(post, stat + size));
    SegsParts(pre, Seg(size, false), post);
    assert SegOk(Seg(size, false));
    HolesIn(pre, a);
    HolesIn(post, stat + size);
  }

  /** The holes that a freed object touches are its neighbours on the list. */
  lemma Neighbours(sp: Space, l: seq<Seg>, pre: seq<Seg>, size: nat, post: seq<Seg>)
    requires SpaceOk(sp, l) && l == pre + [Seg(size, false)] + post
    ensures var hs, k, stat := Holes(l, sp.base), |Holes(pre, sp.base)|, sp.base + Len(pre);
            k <= |hs| && (forall i :: 0 <= i < k ==> hs[i] < stat) && (forall i :: k <= i < |hs| ==> stat < hs[i]) &&
              stat > 0 && size > 0 &&
            (stat + size == Link(hs, k) <==> BeginsHole(post)) &&
            Link(hs, k - 1) in sp.mark && (Link(hs, k - 1) + sp.mark[Link(hs, k - 1)] == stat <==> EndsHole(pre)) &&
            (k < |hs| ==> hs[k] in sp.mark)
  {
    hide SpaceOk, Marked, Holes, Objects, FreeBytes, Len, SegsOk, SegOk;
    var hs, k, stat := Holes(l, sp.base), |Holes(pre, sp.base)|, sp.base + Len(pre);
    Known(sp, l);
    HolesAround(l, pre, size, post, sp.base, sp.mark);
    HolesMarked(l, sp.base, sp.mark);
    TouchesAfter(Holes(pre, sp.base), post, stat + size);
    TouchesBefore(pre, Holes(post, stat + size), sp.base, sp.mark);
  }

  lemma TouchesAfter(hp: seq<int>, post: seq<Seg>, a: int)
    requires SegsOk(post) && a > 0
    ensures Link(hp + Holes(post, a), |hp|) == a <==> BeginsHole(post)
  {
    FirstHole(post, a);
  }

  lemma TouchesBefore(pre: seq<Seg>, hq: seq<int>, a: int, mark: map<int, int>)
    requires SegsOk(pre) && a > 0 && Marked(mark, pre, a) && HEAD in mark && mark[HEAD] == 0
    ensures var h := Link(Holes(pre, a) + hq, |Holes(pre, a)| - 1);
            h in mark && (h + mark[h] == a + Len(pre) <==> EndsHole(pre))
  {
    if Holes(pre, a) != [] {
      LastHole(pre, a, mark);
    } else {
      NoHoles(pre, a);
    }
  }

  lemma {:induction false} HolesMarked(l: seq<Seg>, a: int, mark: map<int, int>)
    requires Marked(mark, l, a)
    ensures forall i :: 0 <= i < |Holes(l, a)| ==> Holes(l, a)[i] in mark
  {
    if l != [] {
      HolesMarked(l[1..], a + l[0].size, mark);
    }
  }

  lemma JoinedParts(pre: seq<Seg>, size: nat, post: seq<Seg>)
    ensures pre == Before(pre) + Lead(pre) && post == Trail(post) + After(post)
  {
  }

  lemma JoinedShape(pre: seq<Seg>, size: nat, post: seq<Seg>, a: int)
    ensures pre == Before(pre) + Lead(pre) && post == Trail(post) + After(post)
    ensures pre + [Seg(size, false)] + post == Before(pre) + Joined(pre, size, post) + After(post)
    ensures a + Len(pre) == a + Len(Before(pre)) + Len(Lead(pre))
  {
    hide Before, After, Lead, Trail, Len;
    JoinedParts(pre, size, post);
    FourParts(Before(pre), Lead(pre), [Seg(size, false)], Trail(post), After(post));
    LenAppend(Before(pre), Lead(pre));
  }

  lemma FourParts<T>(s: seq<T>, t: seq<T>, u: seq<T>, v: seq<T>, w: seq<T>)
    ensures (s + t) + u + (v + w) == s + (t + u + v) + w
  {
  }

  lemma JoinedValues(pre: seq<Seg>, size: nat, post: seq<Seg>, x: int)
    ensures var mid, stat := Joined(pre, size, post), x + Len(Lead(pre));
            mid != [] && FreeBytes(mid) + size == Len(mid) && Objects(mid, x) == [(stat, size)] &&
            Holes(mid, x) == Holes(Lead(pre), x) + Holes(Trail(post), stat + size) &&
              Len(mid) == Len(Lead(pre)) + size + Len(Trail(post))
    ensures Len(Lead(pre)) == (if EndsHole(pre) then pre[|pre| - 1].size else 0)
    ensures Len(Trail(post)) == (if BeginsHole(post) then post[0].size else 0)
    ensures Holes(Lead(pre), x) == if EndsHole(pre) then [x] else []
    ensures forall y :: Holes(Trail(post), y) == if BeginsHole(post) then [y] else []
  {
    hide Holes, Objects, FreeBytes, Len;
    var lead, trail := Lead(pre), Trail(post);
    Parts(lead, Seg(size, false), trail, x, map[]);
    OneSeg(lead, x);
    OneSeg(trail, x + Len(lead) + size);
    forall y ensures Holes(trail, y) == if BeginsHole(post) then [y] else [] {
      OneSeg(trail, y);
    }
  }

  lemma OneSeg(l: seq<Seg>, a: int)
    requires |l| <= 1 && (l != [] ==> l[0].hole)
    ensures Len(l) == FreeBytes(l) == (if l == [] then 0 else l[0].size) && Holes(l, a) == (if l == [] then [] else [a])
    ensures Objects(l, a) == []
  {
    if l != [] {
      assert l[1..] == [];
    }
  }

  /** How the list of holes changes when a hole is made at `x`. */
  ghost predicate ListChange(hs: seq<int>, hs1: seq<int>, k: int, x: int, lead: bool, trail: bool) {
    0 <= k <= |hs| && (lead ==> k > 0 && hs[k - 1] == x) && (trail ==> k < |hs|) &&
    hs1 == if lead then (if trail then hs[..k] + hs[k + 1..] else hs) else if trail then hs[k := x]
      else hs[..k] + [x] + hs[k..]
  }

  /** The list of holes after an object has been freed. */
  lemma FreedHoles(l: seq<Seg>, pre: seq<Seg>, size: nat, post: seq<Seg>, a: int)
    requires l == pre + [Seg(size, false)] + post
    ensures ListChange(Holes(l, a), Holes(Freed(pre, size, post), a), |Holes(pre, a)|, a + Len(Before(pre)),
            EndsHole(pre), BeginsHole(post))
  {
    hide Holes, Objects, FreeBytes, Len, Before, After, Lead, Trail, Joined, EndsHole, BeginsHole, ListChange;
    JoinedShape(pre, size, post, a);
    var mid, x, e := Joined(pre, size, post), a + Len(Before(pre)), a + Len(pre) + size;
    JoinedValues(pre, size, post, x);
    var n := Len(mid);
    var h0, hl, ht, h1 := Holes(Before(pre), a), Holes(Lead(pre), x), Holes(Trail(post), e), Holes(After(post), x + n);
    HolesAppend(mid, After(post), x);
    HolesAppend(Before(pre), mid + After(post), a);
    Regroup(Before(pre), mid, After(post));
    assert Holes(l, a) == h0 + ((hl + ht) + h1);
    Parts(Before(pre), Seg(n, true), After(post), a, map[]);
    assert Holes(Freed(pre, size, post), a) == h0 + ([x] + h1);
    HolesAppend(Before(pre), Lead(pre), a);
    ListCases(h0, hl, ht, h1, x, e);
  }

  lemma ListCases(h0: seq<int>, hl: seq<int>, ht: seq<int>, h1: seq<int>, x: int, e: int)
    requires (hl == [] || hl == [x]) && (ht == [] || ht == [e])
    ensures ListChange(h0 + ((hl + ht) + h1), h0 + ([x] + h1), |h0 + hl|, x, hl == [x], ht == [e])
  {
  }

  /** What freeing an object comes to for the space. */
  lemma FreedSpace(sp: Space, l: seq<Seg>, pre: seq<Seg>, size: nat, post: seq<Seg>, sp1: Space)
    requires SpaceOk(sp, l) && l == pre + [Seg(size, false)] + post
    requires sp1.base == sp.base && sp1.mapped == sp.mapped && sp1.free == sp.free + size && HEAD in sp1.mark
    requires sp1.mark[HEAD] == 0
    requires var x, n := sp.base + Len(Before(pre)), Len(Joined(pre, size, post));
             x in sp1.mark && sp1.mark[x] == n && forall y :: y in sp.mark && (y < x || x + n <= y) ==>
             y in sp1.mark && sp1.mark[y] == sp.mark[y]
    requires Ring(Holes(Freed(pre, size, post), sp.base), sp1.forward, sp1.back)
    ensures SpaceOk(sp1, Freed(pre, size, post))
    ensures var stat := sp.base + Len(pre);
            Objects(l, sp.base) == Objects(Before(pre),
            sp.base) + ([(stat, size)] + Objects(After(post),
            stat + size + (if BeginsHole(post) then post[0].size else 0)))
    ensures var stat := sp.base + Len(pre);
            Objects(Freed(pre, size, post), sp.base) == Objects(Before(pre), sp.base) + Objects(After(post),
            stat + size + (if BeginsHole(post) then post[0].size else 0))
  {
    hide SpaceOk, Marked, Holes, Objects, FreeBytes, Len, Ring, Before, After, Joined, BeginsHole, EndsHole, Coalesced,
      SegsOk;
    Known(sp, l);
    JoinedShape(pre, size, post, sp.base);
    JoinedValues(pre, size, post, sp.base + Len(Before(pre)));
    Filled(Before(pre), Joined(pre, size, post), After(post), Len(Joined(pre, size, post)), sp.base, sp.mark, sp1.mark);
    FreedApart(pre, size, post);
    NewSpace(sp1, Freed(pre, size, post));
  }

  lemma NewSpace(sp: Space, l: seq<Seg>)
    requires 0 < sp.base && sp.mapped == Len(l) <= SPACE_SIZE && SegsOk(l) && Coalesced(l)
    requires Ring(Holes(l, sp.base), sp.forward, sp.back) && Marked(sp.mark, l, sp.base) && HEAD in sp.mark
    requires sp.mark[HEAD] == 0
    requires sp.free == FreeBytes(l)
    ensures SpaceOk(sp, l)
  {
  }

  /** The place of a freed object on the list: the first hole behind it. */
  method FindAfter(sp: Space, stat: int, ghost l: seq<Seg>, ghost k: int) returns (after: int)
    requires SpaceOk(sp, l) && stat > 0 && 0 <= k <= |Holes(l, sp.base)|
    requires var hs := Holes(l, sp.base);
             (forall i :: 0 <= i < k ==> hs[i] < stat) && (forall i :: k <= i < |hs| ==> stat < hs[i])
    ensures after == Link(Holes(l, sp.base), k)
  {
    hide SpaceOk, Holes;
    Known(sp, l);
    HoleNodes(l, sp.base);
    ghost var hs, n := Holes(l, sp.base), 0;
    RingStep(sp, l, 0);
    after := sp.forward[HEAD];
    while after < stat && after != HEAD
      invariant 0 <= n <= k && after == Link(hs, n)
      decreases k - n
    {
      RingStep(sp, l, n + 1);
      after := sp.forward[after];
      n := n + 1;
    }
  }

  /** `unmake_static_object`, in its space: the object at `stat`, whose header says that it takes `size`
      bytes, becomes a hole. */
  method Unmake(sp: Space, stat: int, size: nat, ghost l: seq<Seg>)
    returns (sp1: Space, ghost pre: seq<Seg>, ghost post: seq<Seg>)
    requires SpaceOk(sp, l) && (stat, size) in Objects(l, sp.base)
    ensures l == pre + [Seg(size, false)] + post && stat == sp.base + Len(pre) && SpaceOk(sp1, Freed(pre, size, post))
    ensures sp1.base == sp.base && sp1.mapped == sp.mapped && sp1.free == sp.free + size
  {
    hide SpaceOk, Holes, Objects, FreeBytes, Len, Before, After, Lead, Trail, Joined, EndsHole, BeginsHole, Ring,
      Marked, Nodes;
    pre, post := ObjectAt(l, sp.base, stat, size);
    ghost var hs, k, x := Holes(l, sp.base), |Holes(pre, sp.base)|, sp.base + Len(Before(pre));
    Known(sp, l);
    Neighbours(sp, l, pre, size, post);
    var mark := sp.mark[stat := size];
    var after := FindAfter(sp, stat, l, k);
    RingBack(sp, l, k);
    var before := sp.back[after];
    var forward, back := sp.forward, sp.back;
    FreedHoles(l, pre, size, post, sp.base);
    FreedSizes(sp, l, pre, size, post);
    if stat + mark[stat] == after {
      RingStep(sp, l, k + 1);
      mark := mark[stat := mark[stat] + mark[after]];
      forward := forward[stat := forward[after]];
    } else {
      forward := forward[stat := after];
    }
    var node := stat;
    if before + mark[before] == stat {
      RingBack(sp, l, k - 1);
      mark := mark[before := mark[before] + mark[stat]];
      forward := forward[before := forward[stat]];
      node := before;
    } else {
      back := back[stat := before];
    }
    forward := forward[back[node] := node];
    back := back[forward[node] := node];
    HoleNodes(l, sp.base);
    Relinked(sp, l, k, stat, EndsHole(pre), BeginsHole(post), forward, back, Holes(Freed(pre, size, post), sp.base));
    assert x <= stat < x + Len(Joined(pre, size, post));
    sp1 := Space(sp.base, sp.mapped, sp.free + size, forward, back, mark);
    FreedSpace(sp, l, pre, size, post, sp1);
  }

  lemma LeadTrail(pre: seq<Seg>, post: seq<Seg>, e: int, x: int, mark: map<int, int>)
    ensures EndsHole(pre) && Marked(mark, Lead(pre), x) ==> x in mark && mark[x] == pre[|pre| - 1].size
    ensures BeginsHole(post) && Marked(mark, post, e) ==> e in mark && mark[e] == post[0].size
    ensures !EndsHole(pre) ==> Before(pre) == pre
  {
  }

  /** The sizes of the holes around a freed object. */
  lemma FreedSizes(sp: Space, l: seq<Seg>, pre: seq<Seg>, size: nat, post: seq<Seg>)
    requires SpaceOk(sp, l) && l == pre + [Seg(size, false)] + post
    ensures var stat := sp.base + Len(pre);
            (EndsHole(pre) ==>
               var h := sp.base + Len(Before(pre)); h in sp.mark && stat == h + sp.mark[h]) &&
            (!EndsHole(pre) ==> Len(Before(pre)) == Len(pre)) && (BeginsHole(post) ==> stat + size in sp.mark) &&
            Len(Joined(pre, size, post)) == (if EndsHole(pre) then sp.mark[sp.base + Len(Before(pre))]
              else 0) + size + (if BeginsHole(post) then sp.mark[stat + size] else 0)
    ensures sp.base + Len(Before(pre)) <= sp.base + Len(pre)
    ensures Len(pre) + size <= Len(Before(pre)) + Len(Joined(pre, size, post))
  {
    hide SpaceOk, Holes, Objects, FreeBytes, Len, Joined, Before, After;
    var stat := sp.base + Len(pre);
    Known(sp, l);
    Parts(pre, Seg(size, false), post, sp.base, sp.mark);
    LeadTrail(pre, post, stat + size, sp.base + Len(Before(pre)), sp.mark);
    JoinedShape(pre, size, post, sp.base);
    JoinedValues(pre, size, post, sp.base + Len(Before(pre)));
    AppendMarked(sp.mark, Before(pre), Lead(pre), sp.base);
  }

  /** The links that the freed object has got, and those of its neighbours, make the ring. */
  lemma Relinked(sp: Space, l: seq<Seg>, k: int, stat: int, lead: bool, trail: bool, forward: map<int, int>,
                 back: map<int, int>, hs1: seq<int>)
    requires SpaceOk(sp, l) && Nodes(Holes(l, sp.base)) && stat != HEAD && stat !in Holes(l, sp.base)
    requires ListChange(Holes(l, sp.base), hs1, k, if lead then Link(Holes(l, sp.base), k - 1) else stat, lead, trail)
    requires var hs := Holes(l, sp.base);
             var bb, before, after, aa := Link(hs, k - 2), Link(hs, k - 1), Link(hs, k), Link(hs, k + 1);
             var next := if trail then aa else after;
             forward == (if lead then sp.forward[stat := next][before := next][bb := before]
               else sp.forward[stat := next][before := stat]) &&
             back == (if lead then sp.back[next := before] else sp.back[stat := before][next := stat])
    ensures Ring(hs1, forward, back)
  {
    hide Holes, Marked, SegsOk, Coalesced, Len, FreeBytes;
    var hs := Holes(l, sp.base);
    var bb, before, after, aa := Link(hs, k - 2), Link(hs, k - 1), Link(hs, k), Link(hs, k + 1);
    if lead {
      assert RingAt(hs, sp.forward, sp.back, k - 1) && RingAt(hs, sp.forward, sp.back, k);
      if trail {
        RingRemove(hs, sp.forward, sp.back, k);
        RingExtra(hs1, sp.forward[before := aa], sp.back[aa := before], stat, aa);
        assert forward == sp.forward[before := aa][stat := aa];
      } else {
        RingExtra(hs, sp.forward, sp.back, stat, after);
        assert forward == sp.forward[stat := after] && back == sp.back;
      }
    } else if trail {
      RingReplace(hs, sp.forward, sp.back, k, stat);
    } else {
      RingInsert(hs, sp.forward, sp.back, k, stat);
    }
  }

  // ---- All spaces ----

  /** `o` has been added to the list of objects `s`, and nothing else has changed. */
  ghost predicate ObjectAdded(s: seq<(int, nat)>, s1: seq<(int, nat)>, o: (int, nat)) {
    exists p :: 0 <= p <= |s| && s1 == s[..p] + [o] + s[p..]
  }

  lemma AddedBetween(s: seq<(int, nat)>, t: seq<(int, nat)>, o: (int, nat))
    ensures ObjectAdded(s + t, s + ([o] + t), o)
  {
    assert s + ([o] + t) == (s + t)[..|s|] + [o] + (s + t)[|s|..];
  }

  /** An object is where a hole was, or the end of one. */
  lemma CarvedObjects(pre: seq<Seg>, n: nat, size: nat, post: seq<Seg>, a: int)
    requires size <= n
    ensures ObjectAdded(Objects(pre + [Seg(n, true)] + post, a), Objects(pre + Carved(n, size) + post, a),
            (a + Len(pre) + n - size, size))
  {
    hide Objects, Len, Carved, ObjectAdded;
    var x := a + Len(pre);
    Parts(pre, Seg(n, true), post, a, map[]);
    Nothing(Objects(post, x + n));
    CarvedValues(n, size, x);
    LenAppend(Carved(n, size), post);
    ObjectsAppend(Carved(n, size), post, x);
    ObjectsAppend(pre, Carved(n, size) + post, a);
    Regroup(pre, Carved(n, size), post);
    AddedBetween(Objects(pre, a), Objects(post, x + n), (x + n - size, size));
  }

  lemma CarvedValues(n: nat, size: nat, x: int)
    requires size <= n
    ensures Len(Carved(n, size)) == n && Objects(Carved(n, size), x) == [(x + n - size, size)]
  {
    var rest := if n == size then [] else [Seg(n - size, true)];
    OneSeg(rest, x);
    OneObject(size, x + Len(rest), map[]);
    LenAppend(rest, [Seg(size, false)]);
    ObjectsAppend(rest, [Seg(size, false)], x);
    Nothing([(x + n - size, size)]);
  }

  /** Putting an object at the end of what is mapped of a space. */
  lemma Mapped(sp: Space, l: seq<Seg>, size: nat)
    requires SpaceOk(sp, l) && SegOk(Seg(size, false)) && sp.mapped + size <= SPACE_SIZE
    ensures var x := sp.base + sp.mapped; var l1 := l + [Seg(size, false)];
            SpaceOk(sp.(mapped := sp.mapped + size, mark := sp.mark[x := 0]), l1) &&
            ObjectAdded(Objects(l, sp.base), Objects(l1, sp.base), (x, size))
  {
    hide SpaceOk, Objects, Holes, Marked, FreeBytes, Coalesced, Ring, SegsOk, ObjectAdded;
    var x, l1 := sp.base + sp.mapped, l + [Seg(size, false)];
    Known(sp, l);
    LenAppend(l, [Seg(size, false)]);
    FreeAppend(l, [Seg(size, false)]);
    HolesAppend(l, [Seg(size, false)], sp.base);
    ObjectsAppend(l, [Seg(size, false)], sp.base);
    AppendMarked(sp.mark[x := 0], l, [Seg(size, false)], sp.base);
    OtherMarks(sp.mark, sp.mark[x := 0], l, sp.base);
    OneObject(size, x, sp.mark[x := 0]);
    AppendOk(l, Seg(size, false));
    RingOf(sp, l);
    AddedBetween(Objects(l, sp.base), [], (x, size));
    AllBefore(Objects(l, sp.base), (x, size), Holes(l, sp.base));
    NewSpace(sp.(mapped := sp.mapped + size, mark := sp.mark[x := 0]), l1);
  }

  lemma AllBefore(s: seq<(int, nat)>, o: (int, nat), hs: seq<int>)
    ensures s + [] == s && s + ([o] + []) == s + [o] && hs + [] == hs
  {
  }

  lemma OneObject(size: nat, x: int, mark: map<int, int>)
    ensures var l := [Seg(size, false)];
            Len(l) == size && FreeBytes(l) == 0 && Holes(l, x) == [] && Objects(l, x) == [(x, size)] &&
            Marked(mark, l, x)
  {
    assert [Seg(size, false)][1..] == [];
  }

  lemma AppendOk(l: seq<Seg>, s: Seg)
    requires SegsOk(l) && SegOk(s) && Coalesced(l) && !s.hole
    ensures SegsOk(l + [s]) && Coalesced(l + [s])
  {
  }

  lemma RingOf(sp: Space, l: seq<Seg>)
    requires SpaceOk(sp, l)
    ensures Ring(Holes(l, sp.base), sp.forward, sp.back)
  {
  }

  ghost predicate SpaceAt(spaces: seq<Space>, layouts: seq<seq<Seg>>, table: map<int, int>, i: int) {
    0 <= i < |spaces| && i < |layouts| && SpaceOk(spaces[i], layouts[i]) && spaces[i].base % SPACE_SIZE == 0 &&
    spaces[i].base / SPACE_SIZE in table && table[spaces[i].base / SPACE_SIZE] == i
  }

  /** All static spaces. */
  class StaticSpaces {
    var spaces: seq<Space>
    var spaceStatic: map<int, int>        // from space numbers to positions in `spaces`
    ghost var layouts: seq<seq<Seg>>

    ghost predicate Valid()
      reads this
    {
      |layouts| == |spaces| && forall i {:trigger SpaceAt(spaces, layouts, spaceStatic, i)} :: 0 <= i < |spaces| ==>
        SpaceAt(spaces, layouts, spaceStatic, i)
    }

    ghost function ObjectsIn(i: int): seq<(int, nat)>
      reads this
    {
      if 0 <= i < |spaces| && i < |layouts| then Objects(layouts[i], spaces[i].base) else []
    }

    /** `init_static_objects`. */
    constructor ()
      ensures Valid() && spaces == []
    {
      spaces, spaceStatic, layouts := [], map[], [];
    }

    /** `make_new_static_space`, with a space of the arena that begins at `base`. */
    method MakeSpace(base: int)
      requires Valid() && 0 < base && base % SPACE_SIZE == 0 && base / SPACE_SIZE !in spaceStatic
      modifies this
      ensures Valid() && |spaces| == |old(spaces)| + 1 && spaces[..|old(spaces)|] == old(spaces)
      ensures layouts == old(layouts) + [[]]
      ensures spaces[|old(spaces)|].mapped == 0
    {
      hide SpaceOk;
      var sp := Space(base, 0, 0, map[HEAD := HEAD], map[HEAD := HEAD], map[HEAD := 0]);
      EmptySpace(sp);
      var n := |spaces|;
      spaceStatic := spaceStatic[base / SPACE_SIZE := n];
      spaces, layouts := spaces + [sp], layouts + [[]];
      forall i {:trigger SpaceAt(spaces, layouts, spaceStatic, i)} | 0 <= i < |spaces|
        ensures SpaceAt(spaces, layouts, spaceStatic, i)
      {
        assert i < n ==> SpaceAt(old(spaces), old(layouts), old(spaceStatic), i);
      }
    }

    /** Sets a space and its layout. */
    method SetSpace(i: nat, sp: Space, ghost l: seq<Seg>)
      requires Valid() && i < |spaces| && SpaceOk(sp, l) && sp.base == spaces[i].base
      modifies this`spaces, this`layouts
      ensures Valid() && spaces == old(spaces)[i := sp] && layouts == old(layouts)[i := l]
    {
      hide SpaceOk;
      assert SpaceAt(spaces, layouts, spaceStatic, i);
      spaces, layouts := spaces[i := sp], layouts[i := l];
      forall j {:trigger SpaceAt(spaces, layouts, spaceStatic, j)} | 0 <= j < |spaces|
        ensures SpaceAt(spaces, layouts, spaceStatic, j)
      {
        assert SpaceAt(old(spaces), old(layouts), spaceStatic, j);
      }
    }

    /** `make_static_object`: takes the first hole that is large enough, in the first space that has one;
        if there is none, the object goes to the end of the last space with enough room, or to a new
        space at `newBase`. A request that is larger than a space is an error. */
    method Make(bytes: nat, newBase: int) returns (ok: bool, stat: int, ghost i: int)
      requires Valid() && bytes >= WORD_SIZE && 0 < newBase && newBase % SPACE_SIZE == 0
      requires newBase / SPACE_SIZE !in spaceStatic
      modifies this
      ensures Valid() && (ok <==> StaticSize(bytes) <= SPACE_SIZE)
      ensures !ok ==> spaces == old(spaces) && layouts == old(layouts)
      ensures ok ==> 0 <= i < |spaces| && ObjectAdded(old(ObjectsIn(i)), ObjectsIn(i), (stat, StaticSize(bytes)))
      ensures ok ==> forall j :: j != i ==> ObjectsIn(j) == old(ObjectsIn(j))
      ensures ok && i < |old(spaces)| && old(spaces)[i].mapped == spaces[i].mapped ==>
              !NoFit(old(layouts)[i], StaticSize(bytes)) && forall j :: 0 <= j < i ==>
              NoFit(old(layouts)[j], StaticSize(bytes))
      ensures ok && (|old(spaces)| <= i || old(spaces)[i].mapped != spaces[i].mapped) ==>
              forall j :: 0 <= j < |old(spaces)| ==> NoFit(old(layouts)[j], StaticSize(bytes))
      ensures ok && |old(spaces)| <= i ==> forall j :: 0 <= j < |old(spaces)| ==>
              SPACE_SIZE < old(spaces)[j].mapped + StaticSize(bytes)
      ensures ok && i < |old(spaces)| && old(spaces)[i].mapped == spaces[i].mapped ==>
              InFirstHole(old(layouts)[i], spaces[i].base, stat, StaticSize(bytes))
      ensures ok && i < |old(spaces)| && old(spaces)[i].mapped != spaces[i].mapped ==>
              stat == old(spaces)[i].base + old(spaces)[i].mapped && forall j :: i < j < |old(spaces)| ==>
              SPACE_SIZE < old(spaces)[j].mapped + StaticSize(bytes)
    {
      hide SpaceOk, NoFit, StaticSize, ObjectAdded, InFirstHole;
      var size := StaticSize(bytes);
      ok, stat, i := false, HEAD, -1;
      if size > SPACE_SIZE {
        return;
      }
      var mappable, n := -1, 0;
      while n < |spaces|
        invariant 0 <= n <= |spaces| && Valid() && spaces == old(spaces) && layouts == old(layouts)
        invariant spaceStatic == old(spaceStatic)
        invariant -1 <= mappable < n && (0 <= mappable ==> spaces[mappable].mapped + size <= SPACE_SIZE)
        invariant forall j :: mappable < j < n ==> SPACE_SIZE < spaces[j].mapped + size
        invariant forall j :: 0 <= j < n ==> NoFit(layouts[j], size)
      {
        assert SpaceAt(spaces, layouts, spaceStatic, n);
        if size <= SPACE_SIZE - spaces[n].mapped {
          mappable := n;
        }
        var found, sp;
        ghost var pre, k, post;
        found, sp, stat, pre, k, post := TakeHole(spaces[n], size, layouts[n]);
        if found {
          SomeFit(pre, k, post, size);
          TheFirst(layouts[n], pre, k, post, spaces[n].base, stat, size);
          CarvedObjects(pre, k, size, post, spaces[n].base);
          SetSpace(n, sp, pre + Carved(k, size) + post);
          ok, i := true, n;
          return;
        }
        n := n + 1;
      }
      stat, i := Extend(size, mappable, newBase);
      ok := true;
    }

    /** Puts an object at the end of the space `mappable`, or of a new space if that is -1. */
    method Extend(size: nat, mappable: int, newBase: int) returns (stat: int, ghost i: int)
      requires Valid() && SegOk(Seg(size, false)) && size <= SPACE_SIZE && -1 <= mappable < |spaces|
      requires 0 <= mappable ==> spaces[mappable].mapped + size <= SPACE_SIZE
      requires 0 < newBase && newBase % SPACE_SIZE == 0 && newBase / SPACE_SIZE !in spaceStatic
      modifies this
      ensures Valid() && i == (if mappable == -1 then |old(spaces)| else mappable) && i < |spaces|
      ensures |spaces| == (if mappable == -1 then |old(spaces)| + 1 else |old(spaces)|)
      ensures ObjectAdded(old(ObjectsIn(i)), ObjectsIn(i), (stat, size))
      ensures forall j :: j != i ==> ObjectsIn(j) == old(ObjectsIn(j))
      ensures 0 <= mappable ==> spaces[i].mapped == old(spaces)[i].mapped + size
      ensures 0 <= mappable ==> stat == old(spaces)[i].base + old(spaces)[i].mapped
    {
      hide SpaceOk, ObjectAdded, SegOk;
      var m := mappable;
      if m == -1 {
        MakeSpace(newBase);
        m := |spaces| - 1;
      }
      i := m;
      assert SpaceAt(spaces, layouts, spaceStatic, m);
      var sp := spaces[m];
      Mapped(sp, layouts[m], size);
      stat := sp.base + sp.mapped;
      SetSpace(m, sp.(mapped := sp.mapped + size, mark := sp.mark[stat := 0]), layouts[m] + [Seg(size, false)]);
    }

    /** `unmake_static_object`. The header of the object says that it takes `size` bytes. */
    method Free(stat: int, size: nat, ghost i: int)
      requires Valid() && 0 <= i < |spaces| && (stat, size) in ObjectsIn(i)
      modifies this
      ensures Valid() && |spaces| == |old(spaces)| && ObjectAdded(ObjectsIn(i), old(ObjectsIn(i)), (stat, size))
      ensures forall j :: j != i ==> ObjectsIn(j) == old(ObjectsIn(j))
      ensures spaces[i].free == old(spaces)[i].free + size
    {
      hide SpaceOk, ObjectAdded, Objects, Freed;
      assert SpaceAt(spaces, layouts, spaceStatic, i);
      SpaceNumber(spaces[i], layouts[i], stat, size);
      var n := spaceStatic[stat / SPACE_SIZE];
      var sp;
      ghost var pre, post, l := [], [], layouts[n];
      sp, pre, post := Unmake(spaces[n], stat, size, l);
      FreedObjects(l, pre, size, post, spaces[n].base);
      SetSpace(n, sp, Freed(pre, size, post));
    }
  }

  lemma EmptySpace(sp: Space)
    requires sp.base > 0 && sp.mapped == 0 && sp.free == 0 && sp.forward == map[HEAD := HEAD]
    requires sp.back == map[HEAD := HEAD] && sp.mark == map[HEAD := 0]
    ensures SpaceOk(sp, [])
  {
  }

  lemma SomeFit(pre: seq<Seg>, n: nat, post: seq<Seg>, size: nat)
    requires size <= n
    ensures !NoFit(pre + [Seg(n, true)] + post, size)
  {
    assert (pre + [Seg(n, true)] + post)[|pre|] == Seg(n, true);
  }

  /** An object lies within its space. */
  lemma SpaceNumber(sp: Space, l: seq<Seg>, stat: int, size: nat)
    requires SpaceOk(sp, l) && sp.base % SPACE_SIZE == 0 && (stat, size) in Objects(l, sp.base)
    ensures stat / SPACE_SIZE == sp.base / SPACE_SIZE
  {
    var pre, post := ObjectAt(l, sp.base, stat, size);
    Parts(pre, Seg(size, false), post, sp.base, map[]);
    SegsParts(pre, Seg(size, false), post);
    assert size > 0;
  }

  lemma FreedObjects(l: seq<Seg>, pre: seq<Seg>, size: nat, post: seq<Seg>, a: int)
    requires l == pre + [Seg(size, false)] + post
    ensures ObjectAdded(Objects(Freed(pre, size, post), a), Objects(l, a), (a + Len(pre), size))
  {
    hide Objects, Len, Holes, FreeBytes, Joined, Before, After, Lead, Trail, ObjectAdded;
    JoinedShape(pre, size, post, a);
    var mid, x := Joined(pre, size, post), a + Len(Before(pre));
    JoinedValues(pre, size, post, x);
    ObjectsAppend(mid, After(post), x);
    ObjectsAppend(Before(pre), mid + After(post), a);
    Regroup(Before(pre), mid, After(post));
    Parts(Before(pre), Seg(Len(mid), true), After(post), a, map[]);
    Nothing(Objects(After(post), x + Len(mid)));
    AddedBetween(Objects(Before(pre), a), Objects(After(post), x + Len(mid)), (a + Len(pre), size));
  }
}
