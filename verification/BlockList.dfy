/** Blocks laid end to end in a pool, each with a header that holds a used flag and links to
    its neighbours: the shape shared by the kernel's two block allocators, and how cutting
    and merging keep it. */
module BlockList {
  import opened Basics

  const WORD_SIZE: nat := 4

  /** RT_ALIGN on 32-bit sizes: adding the slack may wrap. */
  function Align(size: nat): nat {
    (size + 3) % WORD_LIMIT / 4 * 4
  }

  /** Alignment covers the request except for the last three sizes of the word, which wrap
      to 0. */
  lemma AlignCovers(size: nat)
    requires size < WORD_LIMIT
    ensures Align(size) % 4 == 0
    ensures size <= Align(size) < size + 4 <==> size <= WORD_LIMIT - 4
    ensures size > WORD_LIMIT - 4 ==> Align(size) == 0
  {
    if size > WORD_LIMIT - 4 { assert (size + 3) % WORD_LIMIT == size + 3 - WORD_LIMIT; }
  }

  function Needed(request: nat): nat {
    if Align(request) < MIN_SIZE then MIN_SIZE else Align(request)
  }

  /** A small request, or one that wraps, needs the smallest payload, and any other the next
      multiple of four. */
  lemma NeededMeans(request: nat)
    requires request < WORD_LIMIT
    ensures if request <= MIN_SIZE || request > WORD_LIMIT - 4 then Needed(request) == MIN_SIZE
            else request <= Needed(request) < request + 4 && Needed(request) % 4 == 0
  {
    AlignCovers(request);
  }

  /** What a request comes to: it is answered, or a test passes only because a size wraps, and
      the source goes on to overwrite what it must not; there the model stops. */
  datatype Outcome = Done(p: Option<nat>) | Wrapped

  function Max(a: int, b: int): int {
    if a < b then b else a
  }

  function Min(a: nat, b: nat): nat {
    if a < b then a else b
  }

  /** Smallest payload worth splitting off, in both allocators. */
  const MIN_SIZE: nat := 12

  /** Header size, offset of the end marker, and whether the end marker's `prev` is kept. */
  datatype Layout = Layout(header: nat, end: nat, closed: bool)

  /** A block header: the used flag and the offsets of the two neighbours. */
  datatype Header = Header(used: bool, next: nat, prev: nat)

  /** The headers of a pool, by offset. A header that is merged away leaves the map, so no
      operation can be reading one that is stale. */
  type Headers = map<nat, Header>

  // ----- the shape of a heap -----

  /** Every block but the end marker has room for its header and leads to a later block. */
  ghost predicate Forward(m: Headers, g: Layout) {
    forall a {:trigger m[a].next} :: a in m && a < g.end ==> a + g.header <= m[a].next && m[a].next in m
  }

  /** No block starts inside another one. */
  ghost predicate Ordered(m: Headers) {
    forall a, b {:trigger m[a].next, b in m} :: a in m && b in m && a < b ==> m[a].next <= b
  }

  /** The blocks lie one after another from 0 to the end marker, all of them aligned; the
      end marker is used. */
  ghost predicate Tiled(m: Headers, g: Layout) {
    && 0 < g.header && g.header % 4 == 0
    && 0 in m && g.end in m && 0 < g.end && m[g.end].used
    && Forward(m, g) && Ordered(m)
    && (forall a {:trigger a in m} :: a in m ==> a <= g.end && a % 4 == 0)
  }

  /** `prev` inverts `next`: everywhere around the circle, or everywhere but at the end
      marker. */
  ghost predicate Linked(m: Headers, g: Layout) {
    && 0 in m && m[0].prev == (if g.closed then g.end else 0)
    && g.end in m && (g.closed ==> m[g.end].next == 0)
    && forall a {:trigger m[m[a].next]} ::
         a in m && a < g.end && m[a].next in m && (g.closed || m[a].next < g.end) ==> m[m[a].next].prev == a
  }

  /** No two neighbours are both free; `hole`, if it is a block, is exempt. */
  ghost predicate CoalescedBut(m: Headers, g: Layout, hole: nat) {
    forall a {:trigger m[m[a].next]} ::
      a in m && a < g.end && m[a].next in m && m[a].next < g.end && a != hole && m[a].next != hole
      ==> m[a].used || m[m[a].next].used
  }

  ghost predicate Coalesced(m: Headers, g: Layout) {
    forall a {:trigger m[m[a].next]} :: a in m && a < g.end && m[a].next in m && m[a].next < g.end
      ==> m[a].used || m[m[a].next].used
  }

  ghost predicate Shaped(m: Headers, g: Layout) {
    Tiled(m, g) && Linked(m, g)
  }

  /** The bytes of the blocks from `a` on whose flag is `used`, each without `overhead`. */
  ghost function Total(m: Headers, a: nat, g: Layout, used: bool, overhead: nat): int
    decreases g.end - a
  {
    if a >= g.end || a !in m || m[a].next <= a then 0
    else (if m[a].used == used then m[a].next - a - overhead else 0) + Total(m, m[a].next, g, used, overhead)
  }

  // ----- what the operations do to the headers -----

  /** Absorb the block after `a`. */
  function Merge(m: Headers, a: nat): Headers
    requires a in m && m[a].next in m && m[m[a].next].next in m
  {
    var n := m[a].next;
    var after := m[n].next;
    var m1 := m[a := m[a].(next := after)];
    m1[after := m1[after].(prev := a)] - {n}
  }

  /** Cut block `a` at offset `at`; the rest becomes a free block. */
  function Cut(m: Headers, a: nat, at: nat, g: Layout): Headers
    requires a in m && m[a].next in m
  {
    var n := m[a].next;
    var m1 := m[at := Header(false, n, a)][a := m[a].(next := at)];
    if (g.closed || n != g.end) && n in m1 then m1[n := m1[n].(prev := at)] else m1
  }

  function SetUsed(m: Headers, a: nat, used: bool): Headers
    requires a in m
  {
    m[a := m[a].(used := used)]
  }

  function Payload(m: Headers, a: nat, g: Layout): int
    requires a in m
  {
    m[a].next - (a + g.header)
  }

  /** rt_malloc's change to the headers once block `a` is chosen. */
  function Taken(m: Headers, a: nat, size: nat, g: Layout): Headers
    requires a in m && m[a].next in m
  {
    if Payload(m, a, g) >= size + g.header + MIN_SIZE then SetUsed(Cut(m, a, a + g.header + size, g), a, true)
    else SetUsed(m, a, true)
  }

  // ----- the operations keep the shape -----

  lemma CutGoesForward(m: Headers, a: nat, at: nat, g: Layout)
    requires Tiled(m, g) && a in m && a < g.end
    requires a + g.header <= at && at + g.header <= m[a].next
    ensures at !in m && m[a].next in m && Forward(Cut(m, a, at, g), g)
  {
    assert m[a].next in m && at !in m;
    var r := Cut(m, a, at, g);
    forall x {:trigger r[x].next} | x in r && x < g.end ensures x + g.header <= r[x].next && r[x].next in r {
      if x != a && x != at { assert m[x].next == r[x].next; }
    }
  }

  lemma CutStaysOrdered(m: Headers, a: nat, at: nat, g: Layout)
    requires Tiled(m, g) && a in m && a < g.end && m[a].next in m && at !in m
    requires a + g.header <= at && at + g.header <= m[a].next
    ensures Ordered(Cut(m, a, at, g))
  {
    var r := Cut(m, a, at, g);
    forall x, y {:trigger r[x].next, y in r} | x in r && y in r && x < y ensures r[x].next <= y {
      if x == a || x == at { assert y == at || m[a].next <= y; } else { assert m[x].next == r[x].next; }
    }
  }

  lemma CutKeepsShape(m: Headers, a: nat, at: nat, g: Layout)
    requires Shaped(m, g) && a in m && a < g.end
    requires a + g.header <= at && at + g.header <= m[a].next && at % 4 == 0
    ensures at !in m && m[a].next in m && Shaped(Cut(m, a, at, g), g)
    ensures Cut(m, a, at, g).Keys == m.Keys + {at}
  {
    hide Forward, Ordered, Linked;
    CutGoesForward(m, a, at, g);
    CutStaysOrdered(m, a, at, g);
    CutLinks(m, a, at, g);
  }

  lemma CutLinks(m: Headers, a: nat, at: nat, g: Layout)
    requires Shaped(m, g) && a in m && a < g.end && m[a].next in m
    requires a + g.header <= at && at + g.header <= m[a].next && at !in m
    ensures Linked(Cut(m, a, at, g), g)
  {
    hide Forward, Ordered;
    var n, r := m[a].next, Cut(m, a, at, g);
    NextIsBlock(m, a, g);
    LinkedAt(m, a, g);
    forall x {:trigger r[r[x].next]} | x in r && x < g.end && r[x].next in r && (g.closed || r[x].next < g.end)
      ensures r[r[x].next].prev == x
    {
      if x != a && x != at {
        NextIsBlock(m, x, g);
        LinkedAt(m, x, g);
      }
    }
  }

  lemma MergeGoesForward(m: Headers, a: nat, g: Layout)
    requires Tiled(m, g) && a in m && a < g.end && m[a].next < g.end
    ensures m[a].next in m && m[m[a].next].next in m && m[a].next < m[m[a].next].next
    ensures Forward(Merge(m, a), g)
  {
    var n := m[a].next;
    assert n in m && m[n].next in m;
    var r := Merge(m, a);
    forall x {:trigger r[x].next} | x in r && x < g.end ensures x + g.header <= r[x].next && r[x].next in r {
      if x != a { assert m[x].next == r[x].next; assert m[a].next in m; assert x < a || m[a].next <= x; }
    }
  }

  lemma MergeStaysOrdered(m: Headers, a: nat, g: Layout)
    requires Tiled(m, g) && a in m && a < g.end && m[a].next < g.end
    requires m[a].next in m && m[m[a].next].next in m
    ensures Ordered(Merge(m, a))
  {
    var n, r := m[a].next, Merge(m, a);
    forall x, y {:trigger r[x].next, y in r} | x in r && y in r && x < y ensures r[x].next <= y {
      if x == a { assert m[a].next <= y; assert m[n].next <= y; } else { assert m[x].next == r[x].next; }
    }
  }

  lemma MergeLinks(m: Headers, a: nat, g: Layout)
    requires Shaped(m, g) && a in m && a < g.end && m[a].next < g.end
    requires m[a].next in m && m[m[a].next].next in m && m[a].next < m[m[a].next].next
    ensures Linked(Merge(m, a), g)
  {
    hide Forward, Ordered;
    var n := m[a].next;
    var after, r := m[n].next, Merge(m, a);
    NextIsBlock(m, n, g);
    LinkedAt(m, n, g);
    forall x {:trigger r[r[x].next]} | x in r && x < g.end && r[x].next in r && (g.closed || r[x].next < g.end)
      ensures r[r[x].next].prev == x
    {
      if x != a {
        NextIsBlock(m, x, g);
        LinkedAt(m, x, g);
      }
    }
  }

  lemma MergeKeepsShape(m: Headers, a: nat, g: Layout)
    requires Shaped(m, g) && a in m && a < g.end && m[a].next < g.end
    ensures m[a].next in m && m[m[a].next].next in m && m[a].next < m[m[a].next].next
    ensures Shaped(Merge(m, a), g) && Merge(m, a).Keys == m.Keys - {m[a].next}
  {
    hide Forward, Ordered, Linked;
    NextIsBlock(m, a, g);
    MergeGoesForward(m, a, g);
    MergeStaysOrdered(m, a, g);
    MergeLinks(m, a, g);
  }

  /** The shape depends on the offsets only, and on the end marker being used. */
  lemma SameOffsetsSameShape(m: Headers, r: Headers, g: Layout)
    requires Shaped(m, g) && r.Keys == m.Keys && r[g.end].used
    requires forall x {:trigger r[x]} :: x in r ==> r[x].next == m[x].next && r[x].prev == m[x].prev
    ensures Shaped(r, g)
  {
    assert 0 in r.Keys && g.end in r.Keys;
    assert forall x {:trigger x in r} :: x in r ==> x in m by {
      forall x | x in r ensures x in m { assert x in r.Keys; }
    }
    assert Forward(r, g) by {
      forall x {:trigger r[x].next} | x in r && x < g.end ensures x + g.header <= r[x].next && r[x].next in r {
        assert m[x].next == r[x].next;
      }
    }
    assert Ordered(r) by {
      forall x, y {:trigger r[x].next, y in r} | x in r && y in r && x < y ensures r[x].next <= y {
        assert m[x].next == r[x].next;
      }
    }
    assert Tiled(r, g) && r[0].prev == m[0].prev;
    forall x {:trigger r[r[x].next]} | x in r && x < g.end && r[x].next in r && (g.closed || r[x].next < g.end)
      ensures r[r[x].next].prev == x
    {
      assert m[m[x].next].prev == x;
    }
  }

  lemma NextIsBlock(m: Headers, a: nat, g: Layout)
    requires Tiled(m, g) && a in m && a < g.end
    ensures m[a].next in m && a + g.header <= m[a].next <= g.end
  {
    assert m[a].next in m;
  }

  lemma OrderedAt(m: Headers, a: nat, b: nat)
    requires Ordered(m) && a in m && b in m
    ensures a < b ==> m[a].next <= b
  {
  }

  lemma LinkedAt(m: Headers, a: nat, g: Layout)
    requires Linked(m, g) && a in m && a < g.end && m[a].next in m
    ensures g.closed || m[a].next < g.end ==> m[m[a].next].prev == a
  {
  }

  lemma NotBothFree(m: Headers, a: nat, g: Layout)
    requires Coalesced(m, g) && a in m && a < g.end && m[a].next in m && m[a].next < g.end
    ensures m[a].used || m[m[a].next].used
  {
  }

  lemma OrderedOf(m: Headers, g: Layout)
    requires Tiled(m, g)
    ensures Ordered(m)
  {
  }

  lemma InsideIsNoBlock(m: Headers, a: nat, at: nat)
    requires Ordered(m) && a in m && a < at < m[a].next
    ensures at !in m
  {
    hide Ordered;
    if at in m { OrderedAt(m, a, at); }
  }

  lemma SetUsedKeepsShape(m: Headers, a: nat, flag: bool, g: Layout)
    requires Shaped(m, g) && a in m && a < g.end
    ensures Shaped(SetUsed(m, a, flag), g) && SetUsed(m, a, flag).Keys == m.Keys
  {
    hide Forward, Ordered, Linked;
    SameOffsetsSameShape(m, SetUsed(m, a, flag), g);
  }

  lemma TakenKeepsShape(m: Headers, a: nat, size: nat, g: Layout)
    requires Shaped(m, g) && Coalesced(m, g) && a in m && a < g.end && !m[a].used
    requires size % 4 == 0 && Payload(m, a, g) >= size
    ensures m[a].next in m && Shaped(Taken(m, a, size, g), g) && Coalesced(Taken(m, a, size, g), g)
  {
    hide Forward, Ordered, Linked, Coalesced, Cut, SetUsed;
    NextIsBlock(m, a, g);
    TakenStaysCoalesced(m, a, size, g);
    hide Tiled;
    if Payload(m, a, g) >= size + g.header + MIN_SIZE {
      CutKeepsShape(m, a, a + g.header + size, g);
      SetUsedKeepsShape(Cut(m, a, a + g.header + size, g), a, true, g);
    } else {
      SetUsedKeepsShape(m, a, true, g);
    }
  }

  lemma TakenStaysCoalesced(m: Headers, a: nat, size: nat, g: Layout)
    requires Shaped(m, g) && Coalesced(m, g) && a in m && a < g.end && !m[a].used
    requires Payload(m, a, g) >= size && m[a].next in m
    ensures Coalesced(Taken(m, a, size, g), g)
  {
    hide Linked, Ordered, Forward;
    var at, r := a + g.header + size, Taken(m, a, size, g);
    if at < m[a].next { InsideIsNoBlock(m, a, at); }
    forall x {:trigger r[r[x].next]} | x in r && x < g.end && r[x].next in r && r[x].next < g.end
      ensures r[x].used || r[r[x].next].used
    {
      if x == at && at !in m {
        assert m[m[a].next].used;
      } else if x != a {
        NextIsBlock(m, x, g);
        assert m[x].used || m[m[x].next].used;
      }
    }
  }

  // ----- joining free neighbours -----

  predicate FreeAfter(m: Headers, a: nat, g: Layout)
    requires a in m
  {
    m[a].next in m && m[a].next != a && !m[m[a].next].used && m[a].next != g.end
  }

  predicate FreeBefore(m: Headers, a: nat)
    requires a in m
  {
    m[a].prev in m && m[a].prev != a && !m[m[a].prev].used
  }

  /** plug_holes, forward: absorb a free successor. */
  function PlugForward(m: Headers, a: nat, g: Layout): (r: Headers)
    requires a in m
  {
    if FreeAfter(m, a, g) && m[m[a].next].next in m then Merge(m, a) else m
  }

  /** plug_holes, backward: let a free predecessor absorb `a`. */
  function PlugBackward(m: Headers, a: nat): Headers
    requires a in m
  {
    var p := m[a].prev;
    if FreeBefore(m, a) && m[p].next == a && m[a].next in m then Merge(m, p) else m
  }

  function Plugged(m: Headers, a: nat, g: Layout): Headers
    requires a in m
  {
    var f := PlugForward(m, a, g);
    if a in f then PlugBackward(f, a) else f
  }

  /** Every block but the first has a predecessor, and `prev` finds it. */
  lemma {:induction false} PrevIsPredecessor(m: Headers, x: nat, a: nat, g: Layout)
    requires Shaped(m, g) && x in m && a in m && x < a < g.end
    ensures m[a].prev in m && m[a].prev < a && m[m[a].prev].next == a
    decreases a - x
  {
    assert m[x].next <= a;
    NextIsBlock(m, x, g);
    if m[x].next < a {
      PrevIsPredecessor(m, m[x].next, a, g);
    } else {
      assert m[m[x].next].prev == x;
    }
  }

  lemma PlugForwardKeepsShape(m: Headers, a: nat, g: Layout)
    requires Shaped(m, g) && CoalescedBut(m, g, a) && a in m && a < g.end && !m[a].used
    ensures var r := PlugForward(m, a, g);
            && Shaped(r, g) && CoalescedBut(r, g, a)
            && a in r && !r[a].used && r[a].prev == m[a].prev && r[a].next in r && r[r[a].next].used
            && (FreeAfter(m, a, g) ==> m[m[a].next].next in m && r == Merge(m, a) && m[a].next < g.end)
  {
    hide Forward, Ordered, Linked, CoalescedBut;
    NextIsBlock(m, a, g);
    if FreeAfter(m, a, g) {
      MergeKeepsShape(m, a, g);
      MergeStaysCoalesced(m, a, g);
    }
  }

  lemma MergeStaysCoalesced(m: Headers, a: nat, g: Layout)
    requires Tiled(m, g) && CoalescedBut(m, g, a) && a in m && a < g.end
    requires m[a].next in m && m[a].next < g.end && m[m[a].next].next in m && m[a].next < m[m[a].next].next
    requires !m[m[a].next].used
    ensures CoalescedBut(Merge(m, a), g, a)
    ensures m[m[m[a].next].next].used
  {
    hide Linked, Ordered, Forward;
    var n, r := m[a].next, Merge(m, a);
    NextIsBlock(m, a, g);
    NextIsBlock(m, n, g);
    if m[n].next < g.end { assert m[n].used || m[m[n].next].used; }
    forall x {:trigger r[r[x].next]} | x in r && x < g.end && r[x].next in r && r[x].next < g.end && x != a
      && r[x].next != a
      ensures r[x].used || r[r[x].next].used
    {
      NextIsBlock(m, x, g);
      assert m[x].used || m[m[x].next].used;
    }
  }

  lemma PlugBackwardKeepsShape(m: Headers, a: nat, g: Layout)
    requires Shaped(m, g) && CoalescedBut(m, g, a) && a in m && a < g.end && !m[a].used
    requires m[a].next in m && m[m[a].next].used
    ensures var r := PlugBackward(m, a);
            && Shaped(r, g) && Coalesced(r, g)
            && (FreeBefore(m, a) ==> m[m[a].prev].next == a && r == Merge(m, m[a].prev) && m[a].prev < a)
  {
    hide Forward, Ordered, Linked;
    if a == 0 {
      FirstHasNoPrev(m, g);
      NoHoleLeft(m, a, g);
    } else {
      PrevIsPredecessor(m, 0, a, g);
      var p := m[a].prev;
      if FreeBefore(m, a) {
        MergeKeepsShape(m, p, g);
        HoleMerged(m, p, a, g);
      } else {
        NoHoleLeft(m, a, g);
      }
    }
  }

  lemma FirstHasNoPrev(m: Headers, g: Layout)
    requires Linked(m, g)
    ensures 0 in m && m[0].prev == if g.closed then g.end else 0
  {
  }

  lemma NoHoleLeft(m: Headers, a: nat, g: Layout)
    requires Shaped(m, g) && CoalescedBut(m, g, a) && a in m && a < g.end
    requires m[a].next in m && m[m[a].next].used
    requires a == 0 || (m[a].prev in m && m[m[a].prev].next == a && m[m[a].prev].used)
    ensures Coalesced(m, g)
  {
    forall x {:trigger m[m[x].next]} | x in m && x < g.end && m[x].next in m && m[x].next < g.end
      ensures m[x].used || m[m[x].next].used
    {
      if m[x].next == a { assert m[m[x].next].prev == x; }
    }
  }

  lemma HoleMerged(m: Headers, p: nat, a: nat, g: Layout)
    requires Shaped(m, g) && CoalescedBut(m, g, a) && a in m && p in m && p < a < g.end && m[p].next == a
    requires !m[p].used && m[a].next in m && m[m[a].next].used
    ensures Coalesced(Merge(m, p), g)
  {
    hide Forward, Ordered;
    var r := Merge(m, p);
    NextIsBlock(m, a, g);
    LinkedAt(m, p, g);
    forall x {:trigger r[r[x].next]} | x in r && x < g.end && r[x].next in r && r[x].next < g.end
      ensures r[x].used || r[r[x].next].used
    {
      NextIsBlock(m, x, g);
      if x != p {
        LinkedAt(m, x, g);
        assert m[x].used || m[m[x].next].used;
      }
    }
  }

  lemma PluggedKeepsShape(m: Headers, a: nat, g: Layout)
    requires Shaped(m, g) && CoalescedBut(m, g, a) && a in m && a < g.end && !m[a].used
    ensures var r := Plugged(m, a, g); Shaped(r, g) && Coalesced(r, g)
  {
    hide Shaped, Coalesced, CoalescedBut, PlugBackward, PlugForward;
    PlugForwardKeepsShape(m, a, g);
    PlugBackwardKeepsShape(PlugForward(m, a, g), a, g);
  }

  // ----- byte accounting -----

  lemma {:induction false} TotalIsNat(m: Headers, a: nat, g: Layout, used: bool)
    ensures Total(m, a, g, used, 0) >= 0
    decreases g.end - a
  {
    if a < g.end && a in m && a < m[a].next { TotalIsNat(m, m[a].next, g, used); }
  }

  lemma TotalStep(m: Headers, a: nat, g: Layout, used: bool, overhead: nat)
    requires a in m && a < g.end && a < m[a].next
    ensures Total(m, a, g, used, overhead)
         == (if m[a].used == used then m[a].next - a - overhead else 0) + Total(m, m[a].next, g, used, overhead)
  {
  }

  /** The same blocks, flags and extents from `lo` up to `hi`. */
  ghost predicate SameBlocks(m: Headers, r: Headers, lo: nat, hi: nat) {
    forall a {:trigger a in m} {:trigger a in r} :: lo <= a < hi ==>
      (a in m <==> a in r) && (a in m ==> r[a].used == m[a].used && r[a].next == m[a].next)
  }

  lemma {:induction false} TotalBelow(m: Headers, r: Headers, x: nat, k: nat, g: Layout, used: bool, overhead: nat)
    requires Tiled(m, g) && x in m && k in m && x <= k <= g.end && SameBlocks(m, r, x, k)
    ensures Total(r, x, g, used, overhead) - Total(m, x, g, used, overhead)
         == Total(r, k, g, used, overhead) - Total(m, k, g, used, overhead)
    decreases k - x
  {
    if x < k {
      NextIsBlock(m, x, g);
      assert m[x].next <= k;
      TotalBelow(m, r, m[x].next, k, g, used, overhead);
    }
  }

  /** Changes between blocks `a` and `n` change the total by what they change there. */
  lemma TotalChange(m: Headers, r: Headers, a: nat, n: nat, g: Layout, used: bool, overhead: nat)
    requires Tiled(m, g) && a in m && n in m && a <= n <= g.end
    requires SameBlocks(m, r, 0, a) && SameBlocks(m, r, n, g.end)
    ensures Total(r, 0, g, used, overhead) - Total(m, 0, g, used, overhead)
         == Total(r, a, g, used, overhead) - Total(m, a, g, used, overhead)
    ensures Total(r, n, g, used, overhead) == Total(m, n, g, used, overhead)
  {
    TotalBelow(m, r, 0, a, g, used, overhead);
    TotalBelow(m, r, n, g.end, g, used, overhead);
  }

  lemma CutElsewhere(m: Headers, a: nat, at: nat, g: Layout)
    requires a in m && m[a].next in m && a < at < m[a].next
    ensures var r := Cut(m, a, at, g);
            SameBlocks(m, r, 0, a) && SameBlocks(m, r, m[a].next, g.end)
  {
  }

  lemma MergeElsewhere(m: Headers, a: nat, g: Layout)
    requires a in m && m[a].next in m && m[m[a].next].next in m && a < m[a].next < m[m[a].next].next
    ensures SameBlocks(m, Merge(m, a), 0, a) && SameBlocks(m, Merge(m, a), m[m[a].next].next, g.end)
  {
  }

  lemma CutTotal(m: Headers, a: nat, at: nat, g: Layout, used: bool, overhead: nat)
    requires Tiled(m, g) && a in m && a < g.end && m[a].next in m && at !in m
    requires a + g.header <= at && at + g.header <= m[a].next
    ensures Total(Cut(m, a, at, g), 0, g, used, overhead)
         == Total(m, 0, g, used, overhead) + (if m[a].used == used then at - m[a].next else 0)
          + (if used then 0 else m[a].next - at - overhead)
  {
    hide Forward, Ordered, SameBlocks, Total;
    var n, r := m[a].next, Cut(m, a, at, g);
    NextIsBlock(m, a, g);
    CutElsewhere(m, a, at, g);
    TotalChange(m, r, a, n, g, used, overhead);
    TotalStep(m, a, g, used, overhead);
    TotalStep(r, a, g, used, overhead);
    TotalStep(r, at, g, used, overhead);
  }

  lemma MergeTotal(m: Headers, a: nat, g: Layout, used: bool, overhead: nat)
    requires Tiled(m, g) && a in m && a < g.end && m[a].next in m && m[a].next < g.end
    requires m[m[a].next].next in m && !m[a].used && !m[m[a].next].used
    ensures Total(Merge(m, a), 0, g, used, overhead)
         == Total(m, 0, g, used, overhead) + (if used then 0 else overhead)
  {
    hide Forward, Ordered, SameBlocks, Total;
    var n, r := m[a].next, Merge(m, a);
    NextIsBlock(m, a, g);
    NextIsBlock(m, n, g);
    MergeElsewhere(m, a, g);
    TotalChange(m, r, a, m[n].next, g, used, overhead);
    TotalStep(m, a, g, used, overhead);
    TotalStep(m, n, g, used, overhead);
    TotalStep(r, a, g, used, overhead);
  }

  lemma SetUsedTotal(m: Headers, a: nat, flag: bool, g: Layout, used: bool, overhead: nat)
    requires Tiled(m, g) && a in m && a < g.end && m[a].used != flag
    ensures Total(SetUsed(m, a, flag), 0, g, used, overhead)
         == Total(m, 0, g, used, overhead) + (if flag == used then 1 else -1) * (m[a].next - a - overhead)
  {
    var r := SetUsed(m, a, flag);
    NextIsBlock(m, a, g);
    hide Forward, Ordered;
    TotalChange(m, r, a, m[a].next, g, used, overhead);
  }

  lemma PluggedKeepsUsed(m: Headers, a: nat, g: Layout)
    requires Shaped(m, g) && CoalescedBut(m, g, a) && a in m && a < g.end && !m[a].used
    ensures var r := Plugged(m, a, g);
            forall b {:trigger r[b]} {:trigger m[b]} :: b in m && m[b].used ==>
              b in r && r[b].used && r[b].next == m[b].next
  {
    hide Forward, Ordered, Linked, Coalesced, CoalescedBut;
    PlugForwardKeepsShape(m, a, g);
    PlugBackwardKeepsShape(PlugForward(m, a, g), a, g);
  }

  // ----- live payloads -----

  /** Every used block but `but` is still there with its extent and its bytes. */
  ghost predicate LiveKept(m0: Headers, d0: seq<byte>, m1: Headers, d1: seq<byte>, g: Layout, but: nat) {
    |d0| == |d1| &&
    forall b {:trigger m1[b]} {:trigger m0[b]} :: b in m0 && b < g.end && m0[b].used && b != but ==>
      && b in m1 && m1[b].used && m1[b].next == m0[b].next
      && forall i {:trigger d1[i]} :: b + g.header <= i < m0[b].next && i < |d0| ==> d1[i] == d0[i]
  }

  /** Blocks other than `a` lie wholly before or after it. */
  lemma Beside(m: Headers, a: nat, b: nat)
    requires Ordered(m) && a in m && b in m && a != b
    ensures m[b].next <= a || m[a].next <= b
  {
    if b < a { assert m[b].next <= a; } else { assert m[a].next <= b; }
  }

  lemma TakenKeepsLive(m: Headers, a: nat, size: nat, g: Layout, d0: seq<byte>, d1: seq<byte>)
    requires Tiled(m, g) && a in m && a < g.end && !m[a].used
    requires Payload(m, a, g) >= size && m[a].next in m && |d0| == |d1|
    requires forall i :: 0 <= i < |d0| && !(a <= i < m[a].next) ==> d1[i] == d0[i]
    ensures LiveKept(m, d0, Taken(m, a, size, g), d1, g, g.end)
  {
    hide Forward;
    var r := Taken(m, a, size, g);
    if a + g.header + size < m[a].next { InsideIsNoBlock(m, a, a + g.header + size); }
    hide Ordered;
    forall b {:trigger r[b]} {:trigger m[b]} | b in m && b < g.end && m[b].used
      ensures b in r && r[b].used && r[b].next == m[b].next
      ensures forall i {:trigger d1[i]} :: b + g.header <= i < m[b].next && i < |d0| ==> d1[i] == d0[i]
    {
      Beside(m, a, b);
    }
  }

  /** The `n` bytes at `src` before are the `n` bytes at `dst` after. */
  ghost predicate Carried(d0: seq<byte>, src: nat, d1: seq<byte>, dst: nat, n: nat) {
    && src + n <= |d0| && dst + n <= |d1|
    && forall k {:trigger d1[k]} :: dst <= k < dst + n ==> d1[k] == d0[src + (k - dst)]
  }

  lemma CarriedInPlace(d0: seq<byte>, d1: seq<byte>, src: nat, n: nat)
    requires |d0| == |d1| && src + n <= |d0|
    requires forall k {:trigger d1[k]} :: src <= k < src + n ==> d1[k] == d0[k]
    ensures Carried(d0, src, d1, src, n)
  {
  }

  lemma LiveBlock(m0: Headers, d0: seq<byte>, m1: Headers, d1: seq<byte>, g: Layout, but: nat, b: nat)
    requires LiveKept(m0, d0, m1, d1, g, but) && b in m0 && b < g.end && m0[b].used && b != but
    ensures b in m1 && m1[b].used && m1[b].next == m0[b].next
    ensures forall i {:trigger d1[i]} :: b + g.header <= i < m0[b].next && i < |d0| ==> i < |d1| && d1[i] == d0[i]
  {
  }

  lemma TakenIsUsed(m: Headers, a: nat, size: nat, g: Layout)
    requires a in m && m[a].next in m && !m[a].used
    ensures a in Taken(m, a, size, g) && Taken(m, a, size, g)[a].used
  {
  }

  /** A copy into the payload of the newly taken block `b` leaves the old blocks alone. */
  lemma CopyKeepsLive(m0: Headers, d0: seq<byte>, m1: Headers, d1: seq<byte>, d2: seq<byte>, g: Layout, b: nat, n: nat)
    requires LiveKept(m0, d0, m1, d1, g, g.end) && Ordered(m1) && |d2| == |d1|
    requires b in m0 && !m0[b].used && b in m1 && n <= m1[b].next - (b + g.header)
    requires forall i :: 0 <= i < |d1| && !(b + g.header <= i < b + g.header + n) ==> d2[i] == d1[i]
    ensures LiveKept(m0, d0, m1, d2, g, g.end)
  {
    forall x {:trigger m1[x]} {:trigger m0[x]} | x in m0 && x < g.end && m0[x].used
      ensures x in m1 && m1[x].used && m1[x].next == m0[x].next
      ensures forall i {:trigger d2[i]} :: x + g.header <= i < m0[x].next && i < |d0| ==> d2[i] == d0[i]
    {
      LiveBlock(m0, d0, m1, d1, g, g.end, x);
      Beside(m1, b, x);
    }
  }

  lemma LiveThenLive(m0: Headers, d0: seq<byte>, m1: Headers, m2: Headers, d: seq<byte>, g: Layout, a: nat)
    requires LiveKept(m0, d0, m1, d, g, g.end) && LiveKept(m1, d, m2, d, g, a)
    ensures LiveKept(m0, d0, m2, d, g, a)
  {
    forall x {:trigger m2[x]} {:trigger m0[x]} | x in m0 && x < g.end && m0[x].used && x != a
      ensures x in m2 && m2[x].used && m2[x].next == m0[x].next
      ensures forall i {:trigger d[i]} :: x + g.header <= i < m0[x].next && i < |d0| ==> d[i] == d0[i]
    {
      LiveBlock(m0, d0, m1, d, g, g.end, x);
      LiveBlock(m1, d, m2, d, g, a, x);
    }
  }

  lemma Nothing(m: Headers, d: seq<byte>, g: Layout, but: nat)
    ensures LiveKept(m, d, m, d, g, but)
  {
  }

  /** What taking block `a` does to a total. */
  lemma TakenTotal(m: Headers, a: nat, size: nat, g: Layout, used: bool, overhead: nat)
    requires Shaped(m, g) && a in m && a < g.end && !m[a].used && m[a].next in m
    requires size % 4 == 0 && Payload(m, a, g) >= size
    ensures var r := Taken(m, a, size, g);
            && a in r && r[a].next > a
            && Total(r, 0, g, used, overhead) == Total(m, 0, g, used, overhead)
               + (if used then r[a].next - a - overhead
                  else -(r[a].next - a - overhead) - (if r[a].next != m[a].next then overhead else 0))
  {
    hide Forward, Ordered, Linked, Total;
    var at := a + g.header + size;
    if Payload(m, a, g) >= size + g.header + MIN_SIZE {
      CutKeepsShape(m, a, at, g);
      CutTotal(m, a, at, g, used, overhead);
      SetUsedTotal(Cut(m, a, at, g), a, true, g, used, overhead);
    } else {
      SetUsedTotal(m, a, true, g, used, overhead);
    }
  }

  // ----- shrinking a used block -----

  /** The headers after rt_realloc has cut the used block `a` at `at`. */
  function Shrunk(m: Headers, a: nat, at: nat, g: Layout): Headers
    requires a in m && m[a].next in m
  {
    var c := Cut(m, a, at, g);
    if at in c then Plugged(c, at, g) else c
  }

  lemma ShrunkKeepsShape(m: Headers, a: nat, at: nat, g: Layout)
    requires Shaped(m, g) && Coalesced(m, g) && a in m && a < g.end && m[a].used
    requires a + g.header <= at && at + g.header <= m[a].next && at % 4 == 0
    ensures m[a].next in m && at !in m
    ensures var c := Cut(m, a, at, g);
            && Shaped(c, g) && CoalescedBut(c, g, at) && at < g.end
            && Shaped(Shrunk(m, a, at, g), g) && Coalesced(Shrunk(m, a, at, g), g)
  {
    hide Forward, Ordered, Linked;
    NextIsBlock(m, a, g);
    CutKeepsShape(m, a, at, g);
    CutLeavesHole(m, a, at, g);
    PluggedKeepsShape(Cut(m, a, at, g), at, g);
  }

  /** The block cut off can only join to the right: the block it was cut from is used. */
  lemma ShrunkIsForward(m: Headers, a: nat, at: nat, g: Layout)
    requires Shaped(m, g) && Coalesced(m, g) && a in m && a < g.end && m[a].used
    requires a + g.header <= at && at + g.header <= m[a].next && at % 4 == 0
    ensures m[a].next in m && at !in m && at in Cut(m, a, at, g)
    ensures var c, n, r := Cut(m, a, at, g), m[a].next, Shrunk(m, a, at, g);
            && r == PlugForward(c, at, g) && (FreeAfter(c, at, g) <==> n < g.end && !m[n].used)
            && c[at].next == n && c.Keys == m.Keys + {at}
            && at in r && !r[at].used
            && (forall b {:trigger b in r} :: b in r && b != at ==> b in m && r[b].used == m[b].used)
  {
    hide Forward, Ordered, Linked, CoalescedBut, Coalesced;
    NextIsBlock(m, a, g);
    ShrunkKeepsShape(m, a, at, g);
    var c := Cut(m, a, at, g);
    CutKeepsShape(m, a, at, g);
    PlugForwardKeepsShape(c, at, g);
    var f := PlugForward(c, at, g);
    assert f[at].prev == a && f[a].used;
  }

  lemma CutLeavesHole(m: Headers, a: nat, at: nat, g: Layout)
    requires Tiled(m, g) && Coalesced(m, g) && a in m && a < g.end && m[a].used && m[a].next in m && at !in m
    ensures CoalescedBut(Cut(m, a, at, g), g, at)
  {
    hide Ordered, Linked, Forward;
    var c := Cut(m, a, at, g);
    forall x {:trigger c[c[x].next]} | x in c && x < g.end && c[x].next in c && c[x].next < g.end && x != at
      && c[x].next != at
      ensures c[x].used || c[c[x].next].used
    {
      if x != a {
        NextIsBlock(m, x, g);
        assert m[x].used || m[m[x].next].used;
      }
    }
  }

  lemma ShrunkKeepsLive(m: Headers, a: nat, at: nat, g: Layout, d0: seq<byte>, d1: seq<byte>)
    requires Shaped(m, g) && Coalesced(m, g) && a in m && a < g.end && m[a].used
    requires a + g.header <= at && at + g.header <= m[a].next && at % 4 == 0 && |d0| == |d1|
    requires forall i :: 0 <= i < |d0| && !(at <= i < m[a].next) ==> d1[i] == d0[i]
    ensures m[a].next in m
    ensures LiveKept(m, d0, Shrunk(m, a, at, g), d1, g, a)
    ensures var r := Shrunk(m, a, at, g); a in r && r[a].used && r[a].next == at
  {
    hide Forward, Linked, Coalesced, CoalescedBut, Plugged;
    NextIsBlock(m, a, g);
    ShrunkKeepsShape(m, a, at, g);
    var c := Cut(m, a, at, g);
    PluggedKeepsUsed(c, at, g);
    hide Ordered;
    var r := Plugged(c, at, g);
    assert c[a].used && c[a].next == at;
    forall b {:trigger r[b]} {:trigger m[b]} | b in m && b < g.end && m[b].used && b != a
      ensures b in r && r[b].used && r[b].next == m[b].next
      ensures forall i {:trigger d1[i]} :: b + g.header <= i < m[b].next && i < |d0| ==> d1[i] == d0[i]
    {
      Beside(m, a, b);
      assert c[b].next == m[b].next;
    }
  }

  /** Joining free blocks frees their headers and changes no used byte. */
  lemma PluggedTotal(m: Headers, a: nat, g: Layout)
    requires Shaped(m, g) && CoalescedBut(m, g, a) && a in m && a < g.end && !m[a].used
    ensures Total(Plugged(m, a, g), 0, g, true, 0) == Total(m, 0, g, true, 0)
  {
    hide Forward, Ordered, Linked, CoalescedBut, Coalesced;
    PlugForwardKeepsShape(m, a, g);
    var f := PlugForward(m, a, g);
    if FreeAfter(m, a, g) { MergeTotal(m, a, g, true, 0); }
    PlugBackwardKeepsShape(f, a, g);
    if FreeBefore(f, a) {
      NextIsBlock(f, a, g);
      MergeTotal(f, f[a].prev, g, true, 0);
    }
  }

  lemma ShrunkTotal(m: Headers, a: nat, at: nat, g: Layout)
    requires Shaped(m, g) && Coalesced(m, g) && a in m && a < g.end && m[a].used
    requires a + g.header <= at && at + g.header <= m[a].next && at % 4 == 0
    ensures m[a].next in m
    ensures Total(Shrunk(m, a, at, g), 0, g, true, 0) == Total(m, 0, g, true, 0) - (m[a].next - at)
  {
    hide Forward, Ordered, Linked, CoalescedBut, Coalesced;
    ShrunkKeepsShape(m, a, at, g);
    CutTotal(m, a, at, g, true, 0);
    PluggedTotal(Cut(m, a, at, g), at, g);
  }

  // ----- releasing -----

  /** The headers after block `a` is released and joined to its free neighbours. */
  function Released(m: Headers, a: nat, g: Layout): Headers
    requires a in m
  {
    Plugged(SetUsed(m, a, false), a, g)
  }

  lemma ReleasedKeepsShape(m: Headers, a: nat, g: Layout)
    requires Shaped(m, g) && Coalesced(m, g) && a in m && a < g.end && m[a].used
    ensures var m1 := SetUsed(m, a, false);
            && Shaped(m1, g) && CoalescedBut(m1, g, a)
            && Shaped(Released(m, a, g), g) && Coalesced(Released(m, a, g), g)
  {
    hide Forward, Ordered, Linked;
    var m1 := SetUsed(m, a, false);
    SameOffsetsSameShape(m, m1, g);
    assert forall x {:trigger m1[m1[x].next]} :: x in m1 && x != a ==> m1[x] == m[x];
    PluggedKeepsShape(m1, a, g);
  }

  lemma ReleasedKeepsLive(m: Headers, a: nat, g: Layout, d: seq<byte>)
    requires Shaped(m, g) && Coalesced(m, g) && a in m && a < g.end && m[a].used
    ensures LiveKept(m, d, Released(m, a, g), d, g, a)
  {
    hide Forward, Ordered, Linked, Coalesced, CoalescedBut, Plugged;
    ReleasedKeepsShape(m, a, g);
    var m1 := SetUsed(m, a, false);
    PluggedKeepsUsed(m1, a, g);
    assert forall b {:trigger m[b]} :: b in m && b != a ==> m1[b] == m[b];
  }

  lemma ReleasedIsFree(m: Headers, a: nat, g: Layout)
    requires Shaped(m, g) && Coalesced(m, g) && a in m && a < g.end && m[a].used
    ensures var r := Released(m, a, g); a !in r || !r[a].used
  {
    hide Forward, Ordered, Linked, Coalesced, CoalescedBut;
    var m1 := SetUsed(m, a, false);
    ReleasedKeepsShape(m, a, g);
    PlugForwardKeepsShape(m1, a, g);
    PlugBackwardKeepsShape(PlugForward(m1, a, g), a, g);
  }

  // ----- bytes -----

  /** Writing a header overwrites whatever bytes were there. */
  method Overwrite(data: array<byte>, at: nat, n: nat)
    requires at + n <= data.Length
    modifies data
    ensures forall i {:trigger data[i]} :: 0 <= i < data.Length && !(at <= i < at + n) ==> data[i] == old(data[..])[i]
  {
    ghost var d := data[..];
    for i := 0 to n
      invariant forall k {:trigger data[k]} :: 0 <= k < data.Length && !(at <= k < at + n) ==> data[k] == d[k]
    {
      data[at + i] := *;
    }
  }

  /** The first `i` bytes at `dst` are those that were at `src`; nothing else has changed. */
  ghost predicate CopiedTo(d: seq<byte>, now: seq<byte>, dst: nat, src: nat, i: nat) {
    && |now| == |d| && dst + i <= |d| && src + i <= |d|
    && (forall k {:trigger now[k]} :: dst <= k < dst + i ==> now[k] == d[src + (k - dst)])
    && (forall k {:trigger now[k]} :: 0 <= k < |d| && !(dst <= k < dst + i) ==> now[k] == d[k])
  }

  lemma CopyMore(d: seq<byte>, now: seq<byte>, then_: seq<byte>, dst: nat, src: nat, n: nat, i: nat, w: nat)
    requires CopiedTo(d, now, dst, src, i) && i + w <= n && dst + n <= |d| && src + n <= |d|
    requires dst + n <= src || src + n <= dst
    requires |then_| == |now| && then_[dst + i..dst + i + w] == now[src + i..src + i + w]
    requires forall k {:trigger then_[k]} :: 0 <= k < |d| && !(dst + i <= k < dst + i + w) ==> then_[k] == now[k]
    ensures CopiedTo(d, then_, dst, src, i + w)
  {
    forall k {:trigger then_[k]} | dst + i <= k < dst + i + w ensures then_[k] == d[src + (k - dst)] {
      assert then_[k] == then_[dst + i..dst + i + w][k - dst - i];
      assert now[src + (k - dst)] == now[src + i..src + i + w][k - dst - i];
    }
  }

  /** One 32-bit load and store. */
  method CopyWord(data: array<byte>, dst: nat, src: nat)
    requires dst + WORD_SIZE <= data.Length && src + WORD_SIZE <= data.Length
    modifies data
    ensures data[dst..dst + WORD_SIZE] == old(data[src..src + WORD_SIZE])
    ensures forall k {:trigger data[k]} :: 0 <= k < data.Length && !(dst <= k < dst + WORD_SIZE) ==>
              data[k] == old(data[..])[k]
  {
    data[dst], data[dst + 1], data[dst + 2], data[dst + 3] := data[src], data[src + 1], data[src + 2], data[src + 3];
  }

  /** rt_memcpy within the pool, between payloads that do not overlap: sixteen bytes at a time
      while both sides are aligned and that many are left, then words, then single bytes. */
  method Copy(data: array<byte>, dst: nat, src: nat, n: nat)
    requires dst + n <= data.Length && src + n <= data.Length && (dst + n <= src || src + n <= dst)
    modifies data
    ensures forall k {:trigger data[k]} :: dst <= k < dst + n ==> data[k] == old(data[..])[src + (k - dst)]
    ensures forall k {:trigger data[k]} :: 0 <= k < data.Length && !(dst <= k < dst + n) ==> data[k] == old(data[..])[k]
  {
    ghost var d := data[..];
    var i := 0;
    if n >= 4 * WORD_SIZE && dst % WORD_SIZE == 0 && src % WORD_SIZE == 0 {
      while n - i >= 4 * WORD_SIZE
        invariant i <= n && CopiedTo(d, data[..], dst, src, i)
      {
        i := CopyNextWord(data, dst, src, n, i, d);
        i := CopyNextWord(data, dst, src, n, i, d);
        i := CopyNextWord(data, dst, src, n, i, d);
        i := CopyNextWord(data, dst, src, n, i, d);
      }
      while n - i >= WORD_SIZE
        invariant i <= n && CopiedTo(d, data[..], dst, src, i)
      {
        i := CopyNextWord(data, dst, src, n, i, d);
      }
    }
    while i < n
      invariant i <= n && CopiedTo(d, data[..], dst, src, i)
    {
      ghost var now := data[..];
      data[dst + i] := data[src + i];
      CopyMore(d, now, data[..], dst, src, n, i, 1);
      i := i + 1;
    }
  }

  method CopyNextWord(data: array<byte>, dst: nat, src: nat, n: nat, i: nat, ghost d: seq<byte>) returns (i': nat)
    requires dst + n <= data.Length && src + n <= data.Length && (dst + n <= src || src + n <= dst)
    requires i + WORD_SIZE <= n && CopiedTo(d, data[..], dst, src, i)
    modifies data
    ensures i' == i + WORD_SIZE && CopiedTo(d, data[..], dst, src, i')
  {
    ghost var now := data[..];
    CopyWord(data, dst + i, src + i);
    CopyMore(d, now, data[..], dst, src, n, i, WORD_SIZE);
    i' := i + WORD_SIZE;
  }
}
