/** The small-memory heap of the kernel: offset-linked blocks, first fit from a cached
    lowest free block, coalescing on release, and shrinking or moving on reallocation. */
module SmallMem {
  import opened Basics
  import opened BlockList

  const HEADER: nat := 12

  // ----- searching -----

  /** The first fitting block from `a` on, below `bound`: the search loop of rt_malloc. */
  function FirstFit(m: Headers, a: nat, bound: int, size: nat, g: Layout): Option<nat>
    decreases bound - a
  {
    if a >= bound || a !in m || m[a].next <= a then None
    else if !m[a].used && Payload(m, a, g) >= size then Some(a)
    else FirstFit(m, m[a].next, bound, size, g)
  }

  /** `hit` is the first free block from `a` on that starts below `bound` and is large enough;
      if there is none, all those blocks are too small. */
  ghost predicate FirstFitting(m: Headers, a: nat, bound: int, size: nat, g: Layout, hit: Option<nat>) {
    && (hit.Some? ==> var f := hit.value; f in m && a <= f < bound && !m[f].used && Payload(m, f, g) >= size)
    && forall b {:trigger b in m} :: b in m && !m[b].used && a <= b < (if hit.Some? then hit.value else bound) ==>
         Payload(m, b, g) < size
  }

  lemma {:induction false} FirstFitFits(m: Headers, a: nat, bound: int, size: nat, g: Layout)
    requires Tiled(m, g) && a in m && bound <= g.end
    ensures FirstFitting(m, a, bound, size, g, FirstFit(m, a, bound, size, g))
    decreases bound - a
  {
    hide Forward, Ordered;
    if a < bound {
      NextIsBlock(m, a, g);
      if m[a].used || Payload(m, a, g) < size {
        FirstFitFits(m, m[a].next, bound, size, g);
        NoneBetween(m, a, g);
      }
    }
  }

  lemma NoneBetween(m: Headers, a: nat, g: Layout)
    requires Tiled(m, g) && a in m
    ensures forall b {:trigger b in m} :: b in m && a <= b ==> b == a || m[a].next <= b
  {
    hide Forward;
    forall b {:trigger b in m} | b in m && a <= b ensures b == a || m[a].next <= b {
      OrderedAt(m, a, b);
    }
  }

  /** With nothing free below, it is the first one of the whole heap. */
  lemma FirstOfAll(m: Headers, l: nat, bound: int, size: nat, g: Layout, hit: Option<nat>)
    requires FirstFitting(m, l, bound, size, g, hit) && Lowest(m, l)
    ensures FirstFitting(m, 0, bound, size, g, hit)
  {
  }

  /** The first free block from `a` on, or the end marker. */
  function NextFree(m: Headers, a: nat, g: Layout): nat
    decreases g.end - a
  {
    if a >= g.end || a !in m || m[a].next <= a || !m[a].used then a else NextFree(m, m[a].next, g)
  }

  /** `l` is the lowest free block, or the end marker when there is none. */
  ghost predicate Lowest(m: Headers, l: nat) {
    forall a {:trigger a in m} :: a in m && a < l ==> m[a].used
  }

  ghost predicate FreeOrEnd(m: Headers, l: nat, g: Layout) {
    l in m && l <= g.end && (l < g.end ==> !m[l].used)
  }

  lemma {:induction false} NextFreeIsFree(m: Headers, a: nat, g: Layout)
    requires Tiled(m, g) && a in m && a <= g.end
    ensures FreeOrEnd(m, NextFree(m, a, g), g) && a <= NextFree(m, a, g)
    ensures Lowest(m, a) ==> Lowest(m, NextFree(m, a, g))
    decreases g.end - a
  {
    hide Forward, Ordered, Lowest;
    if a < g.end && m[a].used {
      NextIsBlock(m, a, g);
      LowestBehind(m, a);
      NextFreeIsFree(m, m[a].next, g);
    }
  }

  lemma LowestBehind(m: Headers, a: nat)
    requires Ordered(m) && a in m && m[a].used
    ensures Lowest(m, a) ==> Lowest(m, m[a].next)
  {
  }

  /** With `l` the lowest free block, the search from `l` finds what the search of the whole
      heap finds: caching it loses nothing. */
  lemma {:induction false} FirstFitFromLowest(m: Headers, x: nat, l: nat, bound: int, size: nat, g: Layout)
    requires Tiled(m, g) && x in m && l in m && x <= l <= g.end && Lowest(m, l)
    ensures FirstFit(m, x, bound, size, g) == FirstFit(m, l, bound, size, g)
    decreases l - x
  {
    if x < l {
      NextIsBlock(m, x, g);
      assert m[x].next <= l;
      FirstFitFromLowest(m, m[x].next, l, bound, size, g);
    }
  }

  // ----- the cached block through plug_holes -----

  /** lfree after plug_holes has run on the free block `a`. */
  function FollowPlug(m: Headers, a: nat, g: Layout, l: nat): nat
    requires a in m
  {
    var l1 := if FreeAfter(m, a, g) && l == m[a].next then a else l;
    var f := PlugForward(m, a, g);
    if a in f && FreeBefore(f, a) && l1 == a then f[a].prev else l1
  }

  lemma FollowPlugStaysFree(m: Headers, a: nat, g: Layout, l: nat)
    requires Shaped(m, g) && CoalescedBut(m, g, a) && a in m && a < g.end && !m[a].used && FreeOrEnd(m, l, g)
    ensures FreeOrEnd(Plugged(m, a, g), FollowPlug(m, a, g, l), g)
    ensures FollowPlug(m, a, g, l) <= l
    ensures Lowest(m, l) ==> Lowest(Plugged(m, a, g), FollowPlug(m, a, g, l))
  {
    hide Forward, Ordered, Linked, CoalescedBut, Coalesced;
    NextIsBlock(m, a, g);
    PlugForwardKeepsShape(m, a, g);
    PlugBackwardKeepsShape(PlugForward(m, a, g), a, g);
  }

  // ----- releasing and shrinking -----

  lemma ReleasedTotal(m: Headers, a: nat, g: Layout)
    requires Shaped(m, g) && Coalesced(m, g) && a in m && a < g.end && m[a].used
    ensures Total(Released(m, a, g), 0, g, true, 0) == Total(m, 0, g, true, 0) - (m[a].next - a)
  {
    hide Forward, Ordered, Linked, CoalescedBut, Coalesced;
    var m1 := SetUsed(m, a, false);
    ReleasedKeepsShape(m, a, g);
    SetUsedTotal(m, a, false, g, true, 0);
    PluggedTotal(m1, a, g);
  }

  /** What is free after a shrink, and where lfree points. */
  lemma ShrunkBlocks(m: Headers, a: nat, at: nat, g: Layout, l: nat)
    requires Shaped(m, g) && Coalesced(m, g) && a in m && a < g.end && m[a].used
    requires a + g.header <= at && at + g.header <= m[a].next && at % 4 == 0
    ensures m[a].next in m && at !in m && at in Cut(m, a, at, g)
    ensures var n, r := m[a].next, Shrunk(m, a, at, g);
            && at in r && !r[at].used
            && (forall b {:trigger b in r} :: b in r && b != at ==> b in m && r[b].used == m[b].used)
            && FollowPlug(Cut(m, a, at, g), at, g, l) == if n < g.end && !m[n].used && l == n then at else l
  {
    hide Forward, Ordered, Linked, CoalescedBut, Coalesced;
    NextIsBlock(m, a, g);
    ShrunkIsForward(m, a, at, g);
    ShrunkKeepsShape(m, a, at, g);
    PlugForwardKeepsShape(Cut(m, a, at, g), at, g);
  }

  /** Exactly when the cached block is still the lowest free one after shrinking: the block
      cut off must lie above it, or have swallowed it. */
  lemma LowestAfterShrink(m: Headers, a: nat, at: nat, g: Layout, l: nat)
    requires Shaped(m, g) && Coalesced(m, g) && a in m && a < g.end && m[a].used
    requires a + g.header <= at && at + g.header <= m[a].next && at % 4 == 0
    requires FreeOrEnd(m, l, g) && Lowest(m, l)
    ensures m[a].next in m && at in Cut(m, a, at, g)
    ensures Lowest(Shrunk(m, a, at, g), FollowPlug(Cut(m, a, at, g), at, g, l))
       <==> l < a || (l == m[a].next && l < g.end)
  {
    hide Forward, Linked, CoalescedBut, Coalesced, Shrunk, FollowPlug, Cut;
    ShrunkBlocks(m, a, at, g, l);
    if l < a {
      assert m[l].next <= a;
    } else {
      assert m[a].next <= l;
    }
  }

  /** After a shrink the cached block may lie above free memory: a full heap, one block of
      it shrunk, and the next request fails although the cut-off block would fit. */
  lemma LowestLostByShrink()
    ensures var g := Layout(HEADER, 112, false);
            var m := map[0 := Header(true, 112, 0), 112 := Header(true, 112, 112)];
            var r := Shrunk(m, 0, 24, g);
            && FollowPlug(Cut(m, 0, 24, g), 24, g, 112) == 112
            && FirstFit(r, 112, 100 - 12, 12, g) == None
            && FirstFit(r, 0, 100 - 12, 12, g) == Some(24)
  {
    var g := Layout(HEADER, 112, false);
    var m := map[0 := Header(true, 112, 0), 112 := Header(true, 112, 112)];
    var c := map[0 := Header(true, 24, 0), 24 := Header(false, 112, 0), 112 := Header(true, 112, 112)];
    assert Cut(m, 0, 24, g) == c;
    assert PlugForward(c, 24, g) == c;
    assert PlugBackward(c, 24) == c;
    assert FirstFit(c, 24, 88, 12, g) == Some(24);
  }

  /** Aligning wraps: on a heap with nothing allocated a request of 2^32 - 1 is answered with
      a payload of 12 bytes. */
  lemma AlignmentShortchanges()
    ensures var g, m := Layout(HEADER, 112, false), map[0 := Header(false, 112, 0), 112 := Header(true, 112, 112)];
            && Align(WORD_LIMIT - 1) <= 100 && Needed(WORD_LIMIT - 1) == 12
            && FirstFit(m, 0, 100 - 12, 12, g) == Some(0)
            && 0 in Taken(m, 0, 12, g) && Payload(Taken(m, 0, 12, g), 0, g) == 12
  {
    AlignCovers(WORD_LIMIT - 1);
  }

  /** The block that the loop of rt_malloc looks at after `n` turns, having found none. */
  function Visited(m: Headers, a: nat, n: nat): nat
    decreases n
  {
    if n == 0 || a !in m then a else Visited(m, m[a].next, n - 1)
  }

  /** On a pool with less room than the smallest block the loop's bound wraps, and the loop goes
      round on the end marker for ever. */
  lemma TinyPoolSpins(size: nat, n: nat)
    requires size % 4 == 0 && size < MIN_SIZE
    ensures var end := size + HEADER;
            var m := map[0 := Header(false, end, 0), end := Header(true, end, end)];
            var b := Visited(m, 0, n);
            && b in m && b < (size - MIN_SIZE) % WORD_LIMIT
            && (m[b].used || Payload(m, b, Layout(HEADER, end, false)) < MIN_SIZE)
  {
    var end := size + HEADER;
    var m := map[0 := Header(false, end, 0), end := Header(true, end, end)];
    assert (size - MIN_SIZE) % WORD_LIMIT == size - MIN_SIZE + WORD_LIMIT;
    if n > 0 {
      EndIsNext(m, end, n - 1);
      assert m[0].next == end;
    }
  }

  lemma {:induction false} EndIsNext(m: Headers, end: nat, n: nat)
    requires end in m && m[end].next == end
    ensures Visited(m, end, n) == end
  {
    if n > 0 { EndIsNext(m, end, n - 1); }
  }

  // ----- reallocating live memory -----

  /** rt_realloc cuts the block off. */
  predicate ShrinksTo(m: Headers, a: nat, size: nat, g: Layout)
    requires a in m
  {
    size + HEADER + MIN_SIZE < Payload(m, a, g)
  }

  /** It hands the same block back. */
  predicate Stays(m: Headers, a: nat, size: nat, g: Layout)
    requires a in m
  {
    size == Payload(m, a, g) || ShrinksTo(m, a, size, g)
  }

  /** rt_malloc answers a request of an aligned size. */
  predicate Served(m: Headers, l: nat, size: nat, g: Layout) {
    0 < size <= g.end - HEADER && FirstFit(m, l, g.end - HEADER - Needed(size), Needed(size), g).Some?
  }

  /** The cached block is still the lowest free one unless a block below it was cut off. */
  predicate StaysLowest(m: Headers, a: nat, size: nat, g: Layout, l: nat)
    requires a in m
  {
    !ShrinksTo(m, a, size, g) || l < a || (l == m[a].next && l < g.end)
  }

  /** When live memory stays where it is, and when there is none for it. */
  predicate Decided(m: Headers, l: nat, a: nat, size: nat, g: Layout, p: Option<nat>) {
    && a in m && (p == Some(a + HEADER) <==> Stays(m, a, size, g))
    && (p.None? <==> !Stays(m, a, size, g) && !Served(m, l, size, g))
  }

  ghost predicate KeepsLowest(m: Headers, l: nat, a: nat, size: nat, g: Layout, m': Headers, l': nat) {
    a in m && (Lowest(m, l) ==> (Lowest(m', l') <==> StaysLowest(m, a, size, g, l)))
  }

  /** Memory of the size, starting with the bytes of the old one; nothing else that was live
      has changed, and the old block is given up if it is another one. */
  ghost predicate HandsOver(m: Headers, d: seq<byte>, a: nat, m': Headers, d': seq<byte>, p: nat, size: nat,
      g: Layout)
  {
    && p >= HEADER && p - HEADER in m' && p - HEADER < g.end && m'[p - HEADER].used
    && size <= Payload(m', p - HEADER, g) < Needed(size) + HEADER + MIN_SIZE
    && LiveKept(m, d, m', d', g, a) && (p != a + HEADER ==> a !in m' || !m'[a].used)
    && a in m && Payload(m, a, g) >= 0 && Carried(d, a + HEADER, d', p, Min(size, Payload(m, a, g)))
  }

  /** The room behind a pointer handed out. */
  function Room(m: Headers, p: nat, g: Layout): int {
    if p >= HEADER && p - HEADER in m then Payload(m, p - HEADER, g) else 0
  }

  lemma HandedOver(m0: Headers, d0: seq<byte>, a: nat, m1: Headers, m2: Headers, d: seq<byte>, b: nat, size: nat,
      g: Layout)
    requires LiveKept(m0, d0, m1, d, g, g.end) && LiveKept(m1, d, m2, d, g, a) && g.header == HEADER
    requires a in m0 && Payload(m0, a, g) >= 0 && (a !in m2 || !m2[a].used)
    requires b in m1 && b < g.end && m1[b].used && b != a
    requires size <= Payload(m1, b, g) < Needed(size) + HEADER + MIN_SIZE
    requires Carried(d0, a + HEADER, d, b + HEADER, Min(size, Payload(m0, a, g)))
    ensures HandsOver(m0, d0, a, m2, d, b + HEADER, size, g) && Room(m2, b + HEADER, g) == Payload(m1, b, g)
  {
    hide LiveKept, Carried, Needed;
    LiveThenLive(m0, d0, m1, m2, d, g, a);
    LiveBlock(m1, d, m2, d, g, a, b);
  }

  // ----- the heap in place -----

  class Heap {
    /** mem_size_aligned: the pool between the first header and the end marker's. */
    const size: nat
    const data: array<byte>
    var hdr: Headers
    var lfree: nat
    var usedMem: nat
    var maxMem: nat

    function G(): Layout {
      Layout(HEADER, size + HEADER, false)
    }

    ghost predicate Valid()
      reads this
    {
      && data.Length == size + 2 * HEADER && size % 4 == 0 && MIN_SIZE <= size < WORD_LIMIT - 2 * HEADER
      && Shaped(hdr, G()) && Coalesced(hdr, G())
      && FreeOrEnd(hdr, lfree, G())
      && usedMem == Total(hdr, 0, G(), true, 0) && usedMem <= maxMem
    }

    /** What a caller may hand to rt_free and rt_realloc: a live payload, or an address the
        functions recognise as not theirs. */
    ghost predicate Handed(rmem: nat)
      reads this
    {
      rmem >= size + HEADER || (HEADER <= rmem && rmem - HEADER in hdr && hdr[rmem - HEADER].used)
    }

    /** rt_system_heap_init on a pool with room for the smallest block. */
    constructor (size: nat)
      requires size % 4 == 0 && MIN_SIZE <= size < WORD_LIMIT - 2 * HEADER
      ensures Valid() && this.size == size && usedMem == 0 && maxMem == 0
      ensures Lowest(hdr, lfree) && fresh(data)
    {
      this.size := size;
      data := new byte[size + 2 * HEADER](_ => 0);
      var end := size + HEADER;
      hdr := map[0 := Header(false, end, 0), end := Header(true, end, end)];
      lfree, usedMem, maxMem := 0, 0, 0;
      new;
      assert Total(hdr, end, G(), true, 0) == 0;
    }

    /** plug_holes on the free block `a`. */
    method PlugHoles(a: nat)
      requires Shaped(hdr, G()) && CoalescedBut(hdr, G(), a) && a in hdr && a < G().end && !hdr[a].used
      modifies `hdr, `lfree
      ensures hdr == Plugged(old(hdr), a, G()) && lfree == FollowPlug(old(hdr), a, G(), old(lfree))
    {
      hide Forward, Ordered, Linked, Coalesced, CoalescedBut;
      NextIsBlock(hdr, a, G());
      PlugForwardKeepsShape(hdr, a, G());
      var n := hdr[a].next;
      if a != n && !hdr[n].used && n != size + HEADER {
        if lfree == n { lfree := a; }
        var after := hdr[n].next;
        hdr := hdr[a := hdr[a].(next := after)];
        hdr := hdr[after := hdr[after].(prev := a)] - {n};
      }
      assert hdr == PlugForward(old(hdr), a, G());
      PlugBackwardKeepsShape(hdr, a, G());
      if a != 0 { PrevIsPredecessor(hdr, 0, a, G()); } else { FirstHasNoPrev(hdr, G()); }
      ghost var mid := hdr;
      var p := hdr[a].prev;
      if p != a && !hdr[p].used {
        if lfree == a { lfree := p; }
        var after := hdr[a].next;
        hdr := hdr[p := hdr[p].(next := after)];
        hdr := hdr[after := hdr[after].(prev := p)] - {a};
      }
      assert hdr == PlugBackward(mid, a);
    }

    /** rt_malloc: first fit from the cached block, splitting off a remainder that is worth
        a header. The payload covers the request exactly when aligning it does not wrap. */
    method Malloc(request: nat) returns (p: Option<nat>)
      requires Valid() && request < WORD_LIMIT
      modifies `hdr, `lfree, `usedMem, `maxMem, data
      ensures Valid() && maxMem == Max(old(maxMem), usedMem)
      ensures old(Lowest(hdr, lfree)) ==> Lowest(hdr, lfree)
      ensures LiveKept(old(hdr), old(data[..]), hdr, data[..], G(), G().end)
      ensures var need := Needed(request);
              var hit := if request == 0 || Align(request) > size then None
                         else FirstFit(old(hdr), old(lfree), size - need, need, G());
              match hit
              case None =>
                && p == None && hdr == old(hdr) && data[..] == old(data[..])
                && usedMem == old(usedMem) && lfree == old(lfree)
              case Some(a) =>
                && p == Some(a + HEADER) && a in old(hdr) && a < G().end && !old(hdr)[a].used
                && old(hdr)[a].next in old(hdr) && hdr == Taken(old(hdr), a, need, G())
                && a in hdr && need <= Payload(hdr, a, G()) < need + HEADER + MIN_SIZE
                && usedMem == old(usedMem) + (hdr[a].next - a)
                && (request <= Payload(hdr, a, G()) <==> request <= WORD_LIMIT - 4)
      ensures 0 < request && Align(request) <= size ==>
                var need, from := Needed(request), if old(Lowest(hdr, lfree)) then 0 else old(lfree);
                FirstFitting(old(hdr), from, size - need, need, G(),
                  if p.Some? && p.value >= HEADER then Some(p.value - HEADER) else None)
    {
      hide Forward, Ordered, Linked, Coalesced, LiveKept, Taken, FirstFitting;
      p := None;
      Nothing(hdr, data[..], G(), G().end);
      if request == 0 { return; }
      AlignCovers(request);
      var need := Align(request);
      if need > size { return; }
      if need < MIN_SIZE { need := MIN_SIZE; }
      var ptr := lfree;
      FirstFitFits(hdr, lfree, size - need, need, G());
      if Lowest(hdr, lfree) {
        FirstOfAll(hdr, lfree, size - need, need, G(), FirstFit(hdr, lfree, size - need, need, G()));
      }
      while ptr < size - need
        invariant unchanged(this) && unchanged(data) && ptr in hdr && ptr <= G().end
        invariant FirstFit(hdr, ptr, size - need, need, G()) == FirstFit(hdr, lfree, size - need, need, G())
        decreases G().end - ptr
      {
        NextIsBlock(hdr, ptr, G());
        if !hdr[ptr].used && hdr[ptr].next - (ptr + HEADER) >= need {
          assert FirstFit(hdr, ptr, size - need, need, G()) == Some(ptr) && data[..] == old(data[..]);
          TakeBlock(ptr, need);
          return Some(ptr + HEADER);
        }
        ptr := hdr[ptr].next;
      }
      assert data[..] == old(data[..]);
    }

    /** The body of rt_malloc's loop once a fitting block is found. */
    method TakeBlock(a: nat, need: nat)
      requires Valid() && a in hdr && a < G().end && !hdr[a].used
      requires need % 4 == 0 && Payload(hdr, a, G()) >= need
      modifies `hdr, `lfree, `usedMem, `maxMem, data
      ensures old(hdr)[a].next in old(hdr)
      ensures Valid() && hdr == Taken(old(hdr), a, need, G()) && maxMem == Max(old(maxMem), usedMem)
      ensures a in hdr && hdr[a].used && need <= Payload(hdr, a, G()) < need + HEADER + MIN_SIZE
      ensures hdr[a].next <= old(hdr)[a].next
      ensures usedMem == old(usedMem) + (hdr[a].next - a)
      ensures old(Lowest(hdr, lfree)) ==> Lowest(hdr, lfree)
      ensures LiveKept(old(hdr), old(data[..]), hdr, data[..], G(), G().end)
    {
      hide Forward, Ordered, Linked, Coalesced, LiveKept, Taken, Lowest;
      ghost var m := hdr;
      TakenKeepsShape(m, a, need, G());
      TakenTotal(m, a, need, G(), true, 0);
      SplitOrTake(a, need);
      TakenKeepsLive(m, a, need, G(), old(data[..]), data[..]);
      if maxMem < usedMem { maxMem := usedMem; }
      TakenKeepsLowest(m, a, need, G(), lfree);
      if a == lfree { AdvanceFree(); }
    }

    method SplitOrTake(a: nat, need: nat)
      requires data.Length == size + 2 * HEADER && a in hdr && a < G().end && !hdr[a].used
      requires hdr[a].next in hdr && hdr[a].next <= G().end && Payload(hdr, a, G()) >= need
      modifies `hdr, `usedMem, data
      ensures hdr == Taken(old(hdr), a, need, G()) && a in hdr && hdr[a].used
      ensures need <= Payload(hdr, a, G()) < need + HEADER + MIN_SIZE && hdr[a].next <= old(hdr)[a].next
      ensures usedMem == old(usedMem) + (hdr[a].next - a)
      ensures forall i :: 0 <= i < data.Length && !(a <= i < old(hdr)[a].next) ==> data[i] == old(data[i])
    {
      if hdr[a].next - (a + HEADER) >= need + HEADER + MIN_SIZE {
        var ptr2 := a + HEADER + need;
        Overwrite(data, ptr2, HEADER);
        hdr := hdr[ptr2 := Header(false, hdr[a].next, a)];
        hdr := hdr[a := hdr[a].(next := ptr2, used := true)];
        if hdr[ptr2].next != size + HEADER {
          hdr := hdr[hdr[ptr2].next := hdr[hdr[ptr2].next].(prev := ptr2)];
        }
        usedMem := usedMem + need + HEADER;
      } else {
        hdr := hdr[a := hdr[a].(used := true)];
        usedMem := usedMem + (hdr[a].next - a);
      }
      assert hdr == Taken(old(hdr), a, need, G());
    }

    /** rt_free. */
    method Free(rmem: Option<nat>)
      requires Valid() && (rmem.Some? ==> Handed(rmem.value))
      modifies `hdr, `lfree, `usedMem
      ensures Valid() && (old(Lowest(hdr, lfree)) ==> Lowest(hdr, lfree))
      ensures rmem.None? || rmem.value >= size + HEADER ==>
                hdr == old(hdr) && lfree == old(lfree) && usedMem == old(usedMem)
      ensures rmem.Some? && rmem.value < size + HEADER ==>
                var a := rmem.value - HEADER;
                && hdr == Released(old(hdr), a, G()) && usedMem == old(usedMem) - (old(hdr)[a].next - a)
                && LiveKept(old(hdr), data[..], hdr, data[..], G(), a)
    {
      hide Forward, Ordered, Linked, Coalesced, CoalescedBut, LiveKept, Plugged, FollowPlug;
      if rmem.None? || rmem.value >= size + HEADER { return; }
      var a := rmem.value - HEADER;
      ghost var m := hdr;
      ReleasedKeepsShape(m, a, G());
      ReleasedTotal(m, a, G());
      ReleasedKeepsLive(m, a, G(), data[..]);
      TotalIsNat(Released(m, a, G()), 0, G(), true);
      NextIsBlock(m, a, G());
      hdr := hdr[a := hdr[a].(used := false)];
      if a < lfree { lfree := a; }
      FollowPlugStaysFree(hdr, a, G(), lfree);
      usedMem := usedMem - (hdr[a].next - a);
      PlugHoles(a);
    }

    /** The splitting branch of rt_realloc. */
    method Shrink(a: nat, newsize: nat)
      requires Valid() && a in hdr && a < G().end && hdr[a].used
      requires newsize % 4 == 0 && newsize + HEADER <= Payload(hdr, a, G())
      modifies `hdr, `lfree, `usedMem, data
      ensures old(hdr)[a].next in old(hdr)
      ensures var at := a + HEADER + newsize;
              && Valid() && hdr == Shrunk(old(hdr), a, at, G()) && a in hdr && hdr[a].used && hdr[a].next == at
              && usedMem == old(usedMem) - (old(hdr)[a].next - at)
              && (forall i :: 0 <= i < data.Length && !(at <= i < old(hdr)[a].next) ==> data[i] == old(data[i]))
      ensures LiveKept(old(hdr), old(data[..]), hdr, data[..], G(), a)
      ensures old(Lowest(hdr, lfree)) ==>
                (Lowest(hdr, lfree) <==> old(lfree) < a || (old(lfree) == old(hdr)[a].next && old(lfree) < G().end))
    {
      hide Forward, Ordered, Linked, Coalesced, CoalescedBut, LiveKept, Plugged, FollowPlug, Lowest;
      var ptr2 := a + HEADER + newsize;
      ghost var m, l := hdr, lfree;
      ShrunkKeepsShape(m, a, ptr2, G());
      ShrunkTotal(m, a, ptr2, G());
      if Lowest(m, l) { LowestAfterShrink(m, a, ptr2, G(), l); }
      NextIsBlock(m, a, G());
      TotalIsNat(Shrunk(m, a, ptr2, G()), 0, G(), true);
      Cutting(a, newsize);
      FollowPlugStaysFree(hdr, ptr2, G(), lfree);
      PlugHoles(ptr2);
      ShrunkKeepsLive(m, a, ptr2, G(), old(data[..]), data[..]);
    }

    /** rt_realloc: keep, shrink in place, or move. Whenever it hands out memory for live
        memory, the first bytes of the payload, as many as both sizes have, are the ones
        that were there; every other live block keeps its extent and its bytes. */
    method Realloc(rmem: Option<nat>, request: nat) returns (p: Option<nat>)
      requires Valid() && request < WORD_LIMIT && (rmem.Some? ==> Handed(rmem.value))
      modifies `hdr, `lfree, `usedMem, `maxMem, data
      ensures rmem.None? ==> LiveKept(old(hdr), old(data[..]), hdr, data[..], G(), G().end)
      ensures rmem.None? ==> (p.Some? <==> Served(old(hdr), old(lfree), Align(request), G()))
      ensures p.None? || Align(request) > size || (rmem.Some? && rmem.value >= size + HEADER) ==>
                && hdr == old(hdr) && data[..] == old(data[..]) && usedMem == old(usedMem)
                && maxMem == old(maxMem) && lfree == old(lfree)
      ensures Align(request) > size ==> p.None?
      ensures rmem.Some? && rmem.value >= size + HEADER && Align(request) <= size ==> p == rmem
      ensures rmem.Some? && rmem.value < size + HEADER && Align(request) <= size ==>
                && Decided(old(hdr), old(lfree), rmem.value - HEADER, Align(request), G(), p)
                && KeepsLowest(old(hdr), old(lfree), rmem.value - HEADER, Align(request), G(), hdr, lfree)
      ensures rmem.Some? && rmem.value < size + HEADER && Align(request) <= size ==>
                var was, now := Room(old(hdr), rmem.value, G()), Align(request);
                && (p == rmem <==> now == was || now + HEADER + MIN_SIZE < was)
                && (p == rmem ==> Room(hdr, rmem.value, G()) == now)
      ensures rmem.Some? && rmem.value < size + HEADER && p.Some? ==>
                && HandsOver(old(hdr), old(data[..]), rmem.value - HEADER, hdr, data[..], p.value, Align(request), G())
                && (request <= Room(hdr, p.value, G()) <==> request <= WORD_LIMIT - 4)
                && (p == rmem ==> maxMem == old(maxMem))
      ensures Valid() && maxMem >= old(maxMem)
    {
      hide Forward, Ordered, Linked, Coalesced, Shrunk, Plugged, Taken, FirstFit, Lowest, Served, LiveKept, Carried;
      hide Decided, KeepsLowest;
      AlignCovers(request);
      Nothing(hdr, data[..], G(), G().end);
      var newsize := Align(request);
      Answered(hdr, lfree, newsize, G());
      if newsize > size { return None; }
      if rmem.None? {
        p := Malloc(newsize);
        return;
      }
      if rmem.value >= size + HEADER { return rmem; }
      p := ReallocLive(rmem.value - HEADER, newsize);
    }

    /** rt_realloc of live memory to an aligned size that the heap has. */
    method ReallocLive(ptr: nat, newsize: nat) returns (p: Option<nat>)
      requires Valid() && ptr in hdr && ptr < size && hdr[ptr].used && newsize % 4 == 0 && newsize <= size
      modifies `hdr, `lfree, `usedMem, `maxMem, data
      ensures p.None? ==>
                && hdr == old(hdr) && data[..] == old(data[..]) && usedMem == old(usedMem)
                && maxMem == old(maxMem) && lfree == old(lfree)
      ensures Decided(old(hdr), old(lfree), ptr, newsize, G(), p)
      ensures KeepsLowest(old(hdr), old(lfree), ptr, newsize, G(), hdr, lfree)
      ensures p.Some? ==> HandsOver(old(hdr), old(data[..]), ptr, hdr, data[..], p.value, newsize, G())
      ensures newsize == 0 && p.Some? ==> Room(hdr, p.value, G()) == 0
      ensures var was := Room(old(hdr), ptr + HEADER, G());
              && (p == Some(ptr + HEADER) <==> newsize == was || newsize + HEADER + MIN_SIZE < was)
              && (p == Some(ptr + HEADER) ==> Room(hdr, ptr + HEADER, G()) == newsize)
      ensures p == Some(ptr + HEADER) ==> maxMem == old(maxMem)
      ensures Valid() && maxMem >= old(maxMem)
    {
      hide Forward, Ordered, Linked, Coalesced, Shrunk, Plugged, Taken, FirstFit, Lowest, Served, LiveKept, Carried;
      NextIsBlock(hdr, ptr, G());
      var oldsize := hdr[ptr].next - ptr - HEADER;
      Answered(hdr, lfree, newsize, G());
      if oldsize == newsize {
        Nothing(hdr, data[..], G(), ptr);
        CarriedInPlace(data[..], data[..], ptr + HEADER, newsize);
        return Some(ptr + HEADER);
      }
      if newsize + HEADER + MIN_SIZE < oldsize {
        Shrink(ptr, newsize);
        CarriedInPlace(old(data[..]), data[..], ptr + HEADER, newsize);
        return Some(ptr + HEADER);
      }
      p := Move(ptr, oldsize, newsize);
    }

    /** The expanding branch of rt_realloc: allocate, copy, release. */
    method Move(a: nat, oldsize: nat, newsize: nat) returns (p: Option<nat>)
      requires Valid() && a in hdr && a < G().end && hdr[a].used && oldsize == Payload(hdr, a, G())
      requires a < size && newsize % 4 == 0 && newsize <= size
      modifies `hdr, `lfree, `usedMem, `maxMem, data
      ensures p.Some? <==> Served(old(hdr), old(lfree), newsize, G())
      ensures p.None? ==>
                && hdr == old(hdr) && data[..] == old(data[..]) && usedMem == old(usedMem)
                && maxMem == old(maxMem) && lfree == old(lfree)
      ensures p.Some? ==>
                && HandsOver(old(hdr), old(data[..]), a, hdr, data[..], p.value, newsize, G())
                && p.value != a + HEADER
                && usedMem == old(usedMem) + Room(hdr, p.value, G()) - oldsize
                && maxMem == Max(old(maxMem), usedMem + (HEADER + oldsize))
      ensures Valid() && (old(Lowest(hdr, lfree)) ==> Lowest(hdr, lfree))
    {
      hide Forward, Ordered, Linked, Coalesced, Taken, FirstFit, LiveKept, Released, Lowest, Served;
      hide HandsOver, Carried, Room;
      ghost var m0, d0 := hdr, data[..];
      AlignCovers(newsize);
      NextIsBlock(hdr, a, G());
      p := Malloc(newsize);
      Answered(m0, old(lfree), newsize, G());
      if p.None? { return; }
      var n := if oldsize < newsize then oldsize else newsize;
      ghost var b := p.value - HEADER;
      TakenIsUsed(m0, b, Needed(newsize), G());
      CopyPayload(p.value, a, n, m0, d0);
      ghost var m1, d2 := hdr, data[..];
      Free(Some(a + HEADER));
      ReleasedIsFree(m1, a, G());
      HandedOver(m0, d0, a, m1, hdr, d2, b, newsize, G());
    }

    /** The copy of rt_realloc: from the old block into the one just taken. */
    method CopyPayload(dst: nat, a: nat, n: nat, ghost m0: Headers, ghost d0: seq<byte>)
      requires Valid() && HEADER <= dst && a in m0 && a < G().end && m0[a].used && n <= Payload(m0, a, G())
      requires var b := dst - HEADER; b in m0 && !m0[b].used && b in hdr && b < G().end && n <= Payload(hdr, b, G())
      requires LiveKept(m0, d0, hdr, data[..], G(), G().end) && |d0| == data.Length
      modifies data
      ensures Carried(d0, a + HEADER, data[..], dst, n)
      ensures a in hdr && hdr[a].used && hdr[a].next == m0[a].next
      ensures LiveKept(m0, d0, hdr, data[..], G(), G().end)
    {
      hide Forward, Ordered, Linked, Coalesced, LiveKept;
      ghost var b, d1 := dst - HEADER, data[..];
      LiveBlock(m0, d0, hdr, d1, G(), G().end, a);
      NextIsBlock(hdr, b, G());
      NextIsBlock(hdr, a, G());
      Beside(hdr, b, a);
      Copy(data, dst, a + HEADER, n);
      CopyKeepsLive(m0, d0, hdr, d1, data[..], G(), b, n);
    }

    method Cutting(a: nat, newsize: nat)
      requires data.Length == size + 2 * HEADER && a in hdr && a < G().end && newsize + HEADER <= Payload(hdr, a, G())
      requires hdr[a].next in hdr && hdr[a].next <= G().end && a + HEADER + newsize !in hdr
      requires usedMem >= hdr[a].next - (a + HEADER + newsize)
      modifies `hdr, `usedMem, data
      ensures var at := a + HEADER + newsize;
              && hdr == Cut(old(hdr), a, at, G()) && usedMem == old(usedMem) - (old(hdr)[a].next - at)
              && (forall i :: 0 <= i < data.Length && !(at <= i < old(hdr)[a].next) ==> data[i] == old(data[i]))
    {
      var ptr2 := a + HEADER + newsize;
      usedMem := usedMem - (hdr[a].next - ptr2);
      Overwrite(data, ptr2, HEADER);
      hdr := hdr[ptr2 := Header(false, hdr[a].next, a)];
      hdr := hdr[a := hdr[a].(next := ptr2)];
      if hdr[ptr2].next != size + HEADER {
        hdr := hdr[hdr[ptr2].next := hdr[hdr[ptr2].next].(prev := ptr2)];
      }
      assert hdr == Cut(old(hdr), a, ptr2, G());
    }

    /** Find the next free block and update the cached one. */
    method AdvanceFree()
      requires Tiled(hdr, G()) && lfree in hdr && lfree <= G().end
      modifies `lfree
      ensures lfree == NextFree(hdr, old(lfree), G())
      ensures FreeOrEnd(hdr, lfree, G()) && (old(Lowest(hdr, lfree)) ==> Lowest(hdr, lfree))
    {
      NextFreeIsFree(hdr, lfree, G());
      while hdr[lfree].used && lfree != size + HEADER
        invariant lfree in hdr && lfree <= G().end && NextFree(hdr, lfree, G()) == NextFree(hdr, old(lfree), G())
        decreases G().end - lfree
      {
        NextIsBlock(hdr, lfree, G());
        lfree := hdr[lfree].next;
      }
    }
  }

  /** Served is what rt_malloc's search decides. */
  lemma Answered(m: Headers, l: nat, size: nat, g: Layout)
    requires HEADER <= g.end && size % 4 == 0
    ensures Served(m, l, size, g) <==>
              0 < size <= g.end - HEADER && FirstFit(m, l, g.end - HEADER - Needed(size), Needed(size), g).Some?
  {
  }

  lemma LowestAt(m: Headers, l: nat, a: nat)
    requires a in m
    ensures Lowest(m, l) && a < l ==> m[a].used
  {
  }

  lemma TakenKeepsLowest(m: Headers, a: nat, size: nat, g: Layout, l: nat)
    requires Tiled(m, g) && a in m && a < g.end && !m[a].used && m[a].next in m && FreeOrEnd(m, l, g)
    requires Payload(m, a, g) >= size
    ensures var r := Taken(m, a, size, g);
            l in r && (l != a ==> FreeOrEnd(r, l, g)) && (Lowest(m, l) ==> Lowest(r, l))
  {
    hide Forward;
    LowestAt(m, l, a);
    if l < a { assert m[l].next <= a; }
  }
}
