/** The kernel's memory-heap object: a circular block list, an unordered free list threaded
    through the unused blocks, running byte accounting, and in-place grow and shrink. */
module Memheap {
  import opened Basics
  import opened BlockList
  import opened RingList

  const HEADER: nat := 24

  /** The free list's own header node, which is not in the pool. */
  const LIST: int := -1

  /** The position in the free list of the first block that fits. */
  function FirstInList(m: Headers, order: seq<int>, size: nat, g: Layout): Option<nat> {
    if order == [] then None
    else if order[0] >= 0 && order[0] in m && Payload(m, order[0], g) >= size then Some(0)
    else match FirstInList(m, order[1..], size, g)
      case None => None
      case Some(i) => Some(i + 1)
  }

  function Shift(r: Option<nat>, i: nat): Option<nat> {
    match r
    case None => None
    case Some(k) => Some(k + i)
  }

  lemma SearchStart(m: Headers, order: seq<int>, size: nat, g: Layout)
    ensures Shift(FirstInList(m, order[0..], size, g), 0) == FirstInList(m, order, size, g)
  {
    assert order[0..] == order;
  }

  lemma SearchStep(m: Headers, order: seq<int>, i: nat, size: nat, g: Layout)
    requires i < |order| && order[i] >= 0 && order[i] in m
    ensures Shift(FirstInList(m, order[i..], size, g), i)
         == if Payload(m, order[i], g) >= size then Some(i) else Shift(FirstInList(m, order[i + 1..], size, g), i + 1)
  {
    assert order[i..][0] == order[i] && order[i..][1..] == order[i + 1..];
  }

  lemma SearchEnd(m: Headers, order: seq<int>, i: nat, size: nat, g: Layout)
    requires i <= |order|
    ensures i == |order| ==> Shift(FirstInList(m, order[i..], size, g), i) == None
  {
  }

  /** `hit` is the position of the first block of the list that is large enough; if there is
      none, every block of the list is too small. */
  ghost predicate FirstFitting(m: Headers, order: seq<int>, size: nat, g: Layout, hit: Option<nat>) {
    && (hit.Some? ==>
          var i := hit.value;
          i < |order| && order[i] >= 0 && order[i] in m && Payload(m, order[i], g) >= size)
    && forall k {:trigger order[k]} :: 0 <= k < (if hit.Some? then hit.value else |order|) ==>
         k < |order| && order[k] >= 0 && order[k] in m && Payload(m, order[k], g) < size
  }

  lemma {:induction false} FirstInListFits(m: Headers, order: seq<int>, size: nat, g: Layout)
    requires forall b {:trigger b in order} :: b in order ==> b >= 0 && b in m
    ensures FirstFitting(m, order, size, g, FirstInList(m, order, size, g))
    decreases |order|
  {
    if order != [] {
      assert order[0] in order;
      if Payload(m, order[0], g) < size {
        var rest, hit := order[1..], FirstInList(m, order[1..], size, g);
        assert forall b {:trigger b in rest} :: b in rest ==> b in order;
        FirstInListFits(m, rest, size, g);
        forall k {:trigger order[k]} | 0 <= k < (if hit.Some? then hit.value + 1 else |order|)
          ensures k < |order| && order[k] >= 0 && order[k] in m && Payload(m, order[k], g) < size
        {
          if k > 0 { assert order[k] == rest[k - 1]; }
        }
      }
    }
  }

  /** Nothing in the list fits exactly when no free block of the heap does. */
  lemma NothingFits(m: Headers, order: seq<int>, size: nat, g: Layout)
    requires ListsFree(m, order, g)
    ensures FirstInList(m, order, size, g).None? <==>
              forall b {:trigger b in m} :: b in m && b < g.end && !m[b].used ==> Payload(m, b, g) < size
  {
    FirstInListFits(m, order, size, g);
    var hit := FirstInList(m, order, size, g);
    if hit.Some? {
      assert order[hit.value] in order;
    } else {
      forall b {:trigger b in m} | b in m && b < g.end && !m[b].used ensures Payload(m, b, g) < size {
        var k := Listed(m, order, b, g);
      }
    }
  }

  /** The free list holds exactly the unused blocks. */
  ghost predicate ListsFree(m: Headers, order: seq<int>, g: Layout) {
    forall b {:trigger b in order} :: b in order <==> 0 <= b < g.end && b in m && !m[b].used
  }

  // ----- the free list through the operations -----

  function TakenOrder(m: Headers, order: seq<int>, i: nat, size: nat, g: Layout): seq<int>
    requires i < |order| && order[i] >= 0 && order[i] in m
  {
    var a := order[i];
    if Payload(m, a, g) >= size + HEADER + MIN_SIZE then [a + HEADER + size] + Without(order, i)
    else Without(order, i)
  }

  /** The block at position `i` leaves the free list, and what is split off it enters at the
      front. */
  predicate Allotted(m: Headers, order: seq<int>, i: nat, size: nat, p: nat, order': seq<int>, g: Layout)
    requires i < |order|
  {
    var a := order[i];
    a >= 0 && a in m && p == a + HEADER
    && order' == (if Payload(m, a, g) < size + HEADER + MIN_SIZE then [] else [p + size]) + Without(order, i)
  }

  lemma TakenFromList(m: Headers, order: seq<int>, i: nat, size: nat, g: Layout)
    requires i < |order| && order[i] >= 0 && order[i] in m
    ensures Allotted(m, order, i, size, order[i] + HEADER, TakenOrder(m, order, i, size, g), g)
  {
  }

  lemma TakenListsFree(m: Headers, order: seq<int>, i: nat, a: nat, size: nat, g: Layout)
    requires Shaped(m, g) && g.header == HEADER && ListsFree(m, order, g) && NoDup(order)
    requires i < |order| && order[i] == a && a in m && Payload(m, a, g) >= size
    ensures m[a].next in m && a < g.end && !m[a].used
    ensures ListsFree(Taken(m, a, size, g), TakenOrder(m, order, i, size, g), g)
    ensures Payload(m, a, g) >= size + HEADER + MIN_SIZE ==> a + HEADER + size !in Without(order, i)
  {
    hide Forward, Ordered, Linked, NoDup;
    assert order[i] in order;
    NextIsBlock(m, a, g);
    TakenMembers(m, order, i, a, size, g);
  }

  lemma TakenMembers(m: Headers, order: seq<int>, i: nat, a: nat, size: nat, g: Layout)
    requires Ordered(m) && g.header == HEADER && ListsFree(m, order, g) && NoDup(order)
    requires i < |order| && order[i] == a && a in m && a < g.end && !m[a].used && Payload(m, a, g) >= size
    requires m[a].next in m && m[a].next <= g.end
    ensures ListsFree(Taken(m, a, size, g), TakenOrder(m, order, i, size, g), g)
    ensures Payload(m, a, g) >= size + HEADER + MIN_SIZE ==> a + HEADER + size !in Without(order, i)
  {
    hide Ordered, NoDup, Insert, Without;
    WithoutNoDup(order, i);
    var at := a + HEADER + size;
    if Payload(m, a, g) >= size + HEADER + MIN_SIZE {
      InsideIsNoBlock(m, a, at);
      assert (at as int) !in order;
      InsertMembers(Without(order, i), 0, at);
    }
  }

  // ----- release -----

  /** rt_memheap_free joins to the left first; then the hole is the left neighbour. */
  function LeftHole(m: Headers, a: nat): nat
    requires a in m
  {
    if FreeBefore(m, a) then m[a].prev else a
  }

  function MergedLeft(m: Headers, a: nat): Headers
    requires a in m
  {
    PlugBackward(SetUsed(m, a, false), a)
  }

  function Freed(m: Headers, a: nat, g: Layout): Headers
    requires a in m
  {
    var l := MergedLeft(m, a);
    if LeftHole(m, a) in l then PlugForward(l, LeftHole(m, a), g) else l
  }

  lemma MergedLeftKeepsShape(m: Headers, a: nat, g: Layout)
    requires Shaped(m, g) && g.closed && Coalesced(m, g) && a in m && a < g.end && m[a].used
    ensures var l, h := MergedLeft(m, a), LeftHole(m, a);
            && Shaped(l, g) && h in l && h < g.end && !l[h].used && CoalescedBut(l, g, h)
            && (h == 0 || (l[h].prev in l && l[l[h].prev].next == h && l[l[h].prev].used))
            && l[h].next == m[a].next && m[a].next in l && l[m[a].next].used == m[m[a].next].used
            && (h != a ==> h in m && m[h].next == a && h < a && l == Merge(SetUsed(m, a, false), h))
            && (h == a ==> l == SetUsed(m, a, false))
            && l.Keys == (if h == a then m.Keys else m.Keys - {a})
  {
    hide Forward, Ordered, Linked;
    var m1 := SetUsed(m, a, false);
    NextIsBlock(m, a, g);
    SameOffsetsSameShape(m, m1, g);
    assert forall x {:trigger m1[m1[x].next]} :: x in m1 && x != a ==> m1[x] == m[x];
    if a == 0 {
      FirstHasNoPrev(m1, g);
    } else {
      PrevIsPredecessor(m1, 0, a, g);
      var p := m[a].prev;
      if !m[p].used {
        MergeKeepsShape(m1, p, g);
        if p > 0 { LeftOfFreeIsUsed(m, p, g); }
        MergeLeavesHole(m1, p, a, g);
      }
    }
  }

  lemma LeftOfFreeIsUsed(m: Headers, p: nat, g: Layout)
    requires Shaped(m, g) && Coalesced(m, g) && p in m && 0 < p < g.end && !m[p].used
    ensures m[p].prev in m && m[p].prev < p && m[m[p].prev].next == p && m[m[p].prev].used
  {
    PrevIsPredecessor(m, 0, p, g);
    NotBothFree(m, m[p].prev, g);
  }

  lemma MergeLeavesHole(m: Headers, p: nat, a: nat, g: Layout)
    requires Shaped(m, g) && CoalescedBut(m, g, a) && a in m && p in m && p < a < g.end && m[p].next == a
             && m[a].next in m
    ensures CoalescedBut(Merge(m, p), g, p)
  {
    hide Forward, Ordered;
    var r := Merge(m, p);
    LinkedAt(m, p, g);
    forall x {:trigger r[r[x].next]} | x in r && x < g.end && r[x].next in r && r[x].next < g.end && x != p
      && r[x].next != p
      ensures r[x].used || r[r[x].next].used
    {
      NextIsBlock(m, x, g);
      LinkedAt(m, x, g);
    }
  }

  lemma FreedKeepsShape(m: Headers, a: nat, g: Layout)
    requires Shaped(m, g) && g.closed && Coalesced(m, g) && a in m && a < g.end && m[a].used
    ensures Shaped(Freed(m, a, g), g) && Coalesced(Freed(m, a, g), g)
  {
    hide Forward, Ordered, Linked, CoalescedBut, Coalesced, MergedLeft;
    var l, h := MergedLeft(m, a), LeftHole(m, a);
    MergedLeftKeepsShape(m, a, g);
    PlugForwardKeepsShape(l, h, g);
    var f := PlugForward(l, h, g);
    NoHoleLeft(f, h, g);
  }

  /** What release adds to the free payload: the block's own, and one header for each join. */
  lemma FreedTotal(m: Headers, a: nat, g: Layout)
    requires Shaped(m, g) && g.closed && Coalesced(m, g) && a in m && a < g.end && m[a].used
    ensures m[a].next in m
    ensures Total(Freed(m, a, g), 0, g, false, g.header)
         == Total(m, 0, g, false, g.header) + Payload(m, a, g)
          + (if LeftHole(m, a) != a then g.header else 0) + (if !m[m[a].next].used then g.header else 0)
  {
    hide Forward, Ordered, Linked, CoalescedBut, Coalesced;
    var m1, l, h := SetUsed(m, a, false), MergedLeft(m, a), LeftHole(m, a);
    NextIsBlock(m, a, g);
    SetUsedTotal(m, a, false, g, false, g.header);
    MergedLeftKeepsShape(m, a, g);
    SameOffsetsSameShape(m, m1, g);
    if h != a { MergeTotal(m1, h, g, false, g.header); }
    PlugForwardKeepsShape(l, h, g);
    if FreeAfter(l, h, g) { MergeTotal(l, h, g, false, g.header); }
  }

  /** The free list after release: a right neighbour joined leaves it, and a block that was not
      joined to the left enters it at the front. */
  function FreedOrder(m: Headers, a: nat, order: seq<int>): seq<int>
    requires a in m && m[a].next in m
  {
    (if LeftHole(m, a) == a then [a] else []) + if m[m[a].next].used then order else Leave(order, m[a].next)
  }

  lemma FreedListsFree(m: Headers, a: nat, order: seq<int>, g: Layout)
    requires Shaped(m, g) && g.closed && Coalesced(m, g) && a in m && a < g.end && m[a].used
    requires ListsFree(m, order, g) && m[a].next in m && NoDup(order)
    ensures ListsFree(Freed(m, a, g), FreedOrder(m, a, order), g)
  {
    hide Forward, Ordered, Linked, CoalescedBut, Coalesced, Leave, NoDup;
    LeaveMembers(order, m[a].next);
    var l, h := MergedLeft(m, a), LeftHole(m, a);
    NextIsBlock(m, a, g);
    MergedLeftKeepsShape(m, a, g);
    PlugForwardKeepsShape(l, h, g);
  }

  /** Merging to the left loses no used block but the one released. */
  lemma MergedLeftKeepsUsed(m: Headers, a: nat, g: Layout)
    requires Shaped(m, g) && g.closed && Coalesced(m, g) && a in m && a < g.end && m[a].used
    ensures var l := MergedLeft(m, a);
            && (forall b {:trigger m[b]} {:trigger l[b]} :: b in m && m[b].used && b != a ==>
                  b in l && l[b].used && l[b].next == m[b].next)
            && (a in l ==> !l[a].used)
  {
    hide Forward, Ordered, Linked, CoalescedBut, Coalesced, MergedLeft, LeftHole, PlugBackward, FreeBefore;
    MergedLeftKeepsShape(m, a, g);
  }

  /** Nor does merging to the right. */
  lemma PlugForwardKeepsUsed(l: Headers, h: nat, g: Layout)
    requires Shaped(l, g) && CoalescedBut(l, g, h) && h in l && h < g.end && !l[h].used
    ensures var f := PlugForward(l, h, g);
            && (forall b {:trigger l[b]} {:trigger f[b]} :: b in l && l[b].used ==>
                  b in f && f[b].used && f[b].next == l[b].next)
            && (forall b {:trigger f[b]} :: b in f && b in l && !l[b].used ==> !f[b].used)
            && (forall b {:trigger b in f} :: b in f ==> b in l)
  {
    hide Forward, Ordered, Linked, CoalescedBut;
    PlugForwardKeepsShape(l, h, g);
  }

  lemma FreedKeepsUsed(m: Headers, a: nat, g: Layout)
    requires Shaped(m, g) && g.closed && Coalesced(m, g) && a in m && a < g.end && m[a].used
    ensures var f := Freed(m, a, g);
            && (forall b {:trigger m[b]} {:trigger f[b]} :: b in m && m[b].used && b != a ==>
                  b in f && f[b].used && f[b].next == m[b].next)
            && (a in f ==> !f[a].used)
  {
    hide Forward, Ordered, Linked, CoalescedBut, Coalesced, MergedLeft, LeftHole, PlugForward, Merge, SetUsed;
    MergedLeftKeepsShape(m, a, g);
    MergedLeftKeepsUsed(m, a, g);
    PlugForwardKeepsUsed(MergedLeft(m, a), LeftHole(m, a), g);
  }

  lemma FreedKeepsLive(m: Headers, a: nat, g: Layout, d: seq<byte>)
    requires Shaped(m, g) && g.closed && Coalesced(m, g) && a in m && a < g.end && m[a].used
    ensures LiveKept(m, d, Freed(m, a, g), d, g, a)
    ensures a !in Freed(m, a, g) || !Freed(m, a, g)[a].used
  {
    hide Shaped, Coalesced, Freed;
    FreedKeepsUsed(m, a, g);
  }

  // ----- growing in place -----

  /** Absorb the free successor of the used block `a`, then cut a free block off at `at`. */
  function Grown(m: Headers, a: nat, at: nat, g: Layout): Headers
    requires a in m && m[a].next in m && m[m[a].next].next in m
  {
    var j := Merge(m, a);
    if a in j && j[a].next in j then Cut(j, a, at, g) else j
  }

  lemma GrownKeepsShape(m: Headers, a: nat, at: nat, g: Layout)
    requires Shaped(m, g) && Coalesced(m, g) && a in m && a < g.end && m[a].used
    requires m[a].next in m && m[a].next < g.end && !m[m[a].next].used && m[m[a].next].next in m
    requires m[a].next < at && at + g.header <= m[m[a].next].next && at % 4 == 0
    ensures var n, r := m[a].next, Grown(m, a, at, g);
            && Shaped(r, g) && Coalesced(r, g) && a in r && r[a].used && r[a].next == at
            && at !in m && r.Keys == m.Keys - {n} + {at} && !r[at].used
  {
    hide Forward, Ordered, Linked, Coalesced;
    var n, j := m[a].next, Merge(m, a);
    NextIsBlock(m, a, g);
    NextIsBlock(m, n, g);
    OrderedOf(m, g);
    InsideIsNoBlock(m, n, at);
    MergeKeepsShape(m, a, g);
    CutKeepsShape(j, a, at, g);
    GrownStaysCoalesced(m, a, at, g);
  }

  lemma GrownStaysCoalesced(m: Headers, a: nat, at: nat, g: Layout)
    requires Tiled(m, g) && Coalesced(m, g) && a in m && a < g.end && m[a].used && at !in m
    requires m[a].next in m && m[a].next < g.end && !m[m[a].next].used && m[m[a].next].next in m
    requires a < m[a].next < at < m[m[a].next].next
    ensures Coalesced(Grown(m, a, at, g), g)
  {
    hide Ordered, Linked, Forward;
    var n, r := m[a].next, Grown(m, a, at, g);
    assert m[n].next < g.end ==> m[m[n].next].used;
    forall x {:trigger r[r[x].next]} | x in r && x < g.end && r[x].next in r && r[x].next < g.end
      ensures r[x].used || r[r[x].next].used
    {
      if x != a && x != at {
        NextIsBlock(m, x, g);
        assert m[x].used || m[m[x].next].used;
      }
    }
  }

  lemma AbsorbTotal(m: Headers, a: nat, g: Layout)
    requires Shaped(m, g) && a in m && a < g.end && m[a].used
    requires m[a].next in m && m[a].next < g.end && !m[m[a].next].used && m[m[a].next].next in m
    ensures Total(Merge(m, a), 0, g, false, g.header)
         == Total(m, 0, g, false, g.header) - Payload(m, m[a].next, g)
  {
    var n, r := m[a].next, Merge(m, a);
    NextIsBlock(m, a, g);
    NextIsBlock(m, n, g);
    MergeElsewhere(m, a, g);
    hide Forward, Ordered, Linked, SameBlocks, Total;
    TotalChange(m, r, a, m[n].next, g, false, g.header);
    TotalStep(m, a, g, false, g.header);
    TotalStep(m, n, g, false, g.header);
    TotalStep(r, a, g, false, g.header);
  }

  lemma GrownTotal(m: Headers, a: nat, at: nat, g: Layout)
    requires Shaped(m, g) && Coalesced(m, g) && a in m && a < g.end && m[a].used && at !in m
    requires m[a].next in m && m[a].next < g.end && !m[m[a].next].used && m[m[a].next].next in m
    requires m[a].next < at && at + g.header <= m[m[a].next].next
    ensures Total(Grown(m, a, at, g), 0, g, false, g.header) == Total(m, 0, g, false, g.header) - (at - m[a].next)
  {
    hide Forward, Ordered, Linked, Coalesced;
    NextIsBlock(m, a, g);
    AbsorbTotal(m, a, g);
    MergeKeepsShape(m, a, g);
    CutTotal(Merge(m, a), a, at, g, false, g.header);
  }

  lemma GrownKeepsLive(m: Headers, a: nat, at: nat, g: Layout, d0: seq<byte>, d1: seq<byte>)
    requires Tiled(m, g) && a in m && a < g.end && m[a].used && at !in m && |d0| == |d1|
    requires m[a].next in m && m[a].next < g.end && !m[m[a].next].used && m[m[a].next].next in m
    requires a < m[a].next < at && at + g.header <= m[m[a].next].next
    requires forall i {:trigger d1[i]} :: 0 <= i < |d0| && !(at <= i < at + g.header) ==> d1[i] == d0[i]
    ensures LiveKept(m, d0, Grown(m, a, at, g), d1, g, a)
  {
    hide Forward;
    var n, r := m[a].next, Grown(m, a, at, g);
    OrderedOf(m, g);
    hide Ordered;
    forall b {:trigger r[b]} {:trigger m[b]} | b in m && b < g.end && m[b].used && b != a
      ensures b in r && r[b].used && r[b].next == m[b].next
      ensures forall i {:trigger d1[i]} :: b + g.header <= i < m[b].next && i < |d0| ==> d1[i] == d0[i]
    {
      Beside(m, n, b);
    }
  }

  // ----- shrinking in place -----

  lemma ShrunkFreeTotal(m: Headers, a: nat, at: nat, g: Layout)
    requires Shaped(m, g) && Coalesced(m, g) && a in m && a < g.end && m[a].used
    requires a + g.header <= at && at + g.header <= m[a].next && at % 4 == 0
    ensures m[a].next in m
    ensures Total(Shrunk(m, a, at, g), 0, g, false, g.header)
         == Total(m, 0, g, false, g.header) + m[a].next - at - (if m[m[a].next].used then g.header else 0)
  {
    hide Forward, Ordered, Linked, CoalescedBut, Coalesced;
    NextIsBlock(m, a, g);
    ShrunkKeepsShape(m, a, at, g);
    ShrunkIsForward(m, a, at, g);
    CutTotal(m, a, at, g, false, g.header);
    var c := Cut(m, a, at, g);
    PlugForwardKeepsShape(c, at, g);
    if FreeAfter(c, at, g) { MergeTotal(c, at, g, false, g.header); }
  }

  /** The unused bytes counted are between none and all of the pool. */
  lemma {:induction false} FreeTotalBounds(m: Headers, a: nat, g: Layout)
    requires Tiled(m, g) && a in m && a <= g.end
    ensures 0 <= Total(m, a, g, false, g.header) <= g.end - a
    decreases g.end - a
  {
    if a < g.end {
      NextIsBlock(m, a, g);
      FreeTotalBounds(m, m[a].next, g);
    }
  }

  // ----- the high-water mark -----

  /** `peak` is the largest `pool - v` over the values seen. */
  ghost predicate Peak(seen: seq<int>, pool: nat, peak: int) {
    && (forall i {:trigger seen[i]} :: 0 <= i < |seen| ==> pool - seen[i] <= peak)
    && (exists i {:trigger seen[i]} :: 0 <= i < |seen| && pool - seen[i] == peak)
  }

  lemma PeakGrows(seen: seq<int>, pool: nat, peak: int, v: int)
    requires Peak(seen, pool, peak)
    ensures Peak(seen + [v], pool, if pool - v > peak then pool - v else peak)
  {
    var t := seen + [v];
    var i :| 0 <= i < |seen| && pool - seen[i] == peak;
    assert t[i] == seen[i] && t[|seen|] == v;
  }

  lemma Listed(m: Headers, order: seq<int>, b: nat, g: Layout) returns (k: nat)
    requires ListsFree(m, order, g) && b in m && b < g.end && !m[b].used
    ensures k < |order| && order[k] == b
  {
    assert b as int in order;
    k :| 0 <= k < |order| && order[k] == b;
  }

  lemma GrownListsFree(m: Headers, a: nat, at: nat, g: Layout, order: seq<int>, k: nat)
    requires Shaped(m, g) && a in m && a < g.end && m[a].used && at !in m && NoDup(order) && ListsFree(m, order, g)
    requires m[a].next in m && m[a].next < g.end && !m[m[a].next].used && m[m[a].next].next in m
    requires m[a].next < at && at + g.header <= m[m[a].next].next && k < |order| && order[k] == m[a].next
    ensures (at as int) !in Without(order, k)
    ensures ListsFree(Grown(m, a, at, g), [at] + Without(order, k), g)
  {
    hide Forward, Ordered, Linked, NoDup, Insert, Without;
    NextIsBlock(m, a, g);
    NextIsBlock(m, m[a].next, g);
    WithoutNoDup(order, k);
    InsertMembers(Without(order, k), 0, at);
  }

  /** The free list after a shrink: a joined right neighbour leaves it, the new block enters. */
  lemma ShrunkListsFree(m: Headers, a: nat, at: nat, g: Layout, order: seq<int>, rest: seq<int>)
    requires Shaped(m, g) && Coalesced(m, g) && a in m && a < g.end && m[a].used && ListsFree(m, order, g)
    requires a + g.header <= at && at + g.header <= m[a].next && at % 4 == 0 && m[a].next in m
    requires forall b {:trigger b in rest} :: b in rest <==> b in order && (b != m[a].next || m[m[a].next].used)
    ensures (at as int) !in rest && ListsFree(Shrunk(m, a, at, g), [at] + rest, g)
  {
    hide Forward, Ordered, Linked, CoalescedBut, Coalesced;
    NextIsBlock(m, a, g);
    ShrunkIsForward(m, a, at, g);
    ShrunkKeepsShape(m, a, at, g);
    var c := Cut(m, a, at, g);
    PlugForwardKeepsShape(c, at, g);
    InsertMembers(rest, 0, at);
    assert at !in m && (at as int) !in order;
  }

  // ----- resizing -----

  /** rt_memheap_realloc's test for growing in place, in 32-bit arithmetic. */
  predicate GrowGuard(oldsize: nat, nextsize: nat, newsize: nat) {
    nextsize + oldsize > (newsize + MIN_SIZE) % WORD_LIMIT
  }

  /** For aligned sizes the test is right exactly when adding the slack does not wrap. */
  lemma GrowGuardIsExact(oldsize: nat, nextsize: nat, newsize: nat)
    requires newsize % 4 == 0 && newsize < WORD_LIMIT && oldsize < newsize
    requires MIN_SIZE <= oldsize && MIN_SIZE <= nextsize && oldsize + nextsize < WORD_LIMIT
    ensures (GrowGuard(oldsize, nextsize, newsize) <==> newsize + MIN_SIZE < oldsize + nextsize)
       <==> newsize <= WORD_LIMIT - 16
  {
    if newsize > WORD_LIMIT - 16 { assert (newsize + MIN_SIZE) % WORD_LIMIT == newsize + MIN_SIZE - WORD_LIMIT; }
  }

  /** The test passes only because it wraps. */
  predicate GuardWraps(m: Headers, a: nat, size: nat, g: Layout)
    requires a in m && m[a].next in m
  {
    && size > WORD_LIMIT - 16 && !m[m[a].next].used && Payload(m, a, g) >= 0 && Payload(m, m[a].next, g) >= 0
    && GrowGuard(Payload(m, a, g), Payload(m, m[a].next, g), size)
  }

  /** Then the address of the new free block's header wraps as well: in a pool at address
      `base` it falls into the header of the block that was to grow. */
  lemma NewHeaderWraps(base: nat, a: nat, size: nat)
    requires size % 4 == 0 && WORD_LIMIT - 16 < size < WORD_LIMIT && base + a + HEADER < WORD_LIMIT
    ensures base + a + 12 <= (base + a + HEADER + size) % WORD_LIMIT < base + a + HEADER
  {
    assert (base + a + HEADER + size) % WORD_LIMIT == base + a + HEADER + size - WORD_LIMIT;
  }

  /** A block of 100 bytes with a free neighbour, and a request of 2^32 - 12: the new header
      would start 12 bytes into that block's own header. */
  lemma GrowWraps(base: nat)
    requires base + 1000 + HEADER < WORD_LIMIT
    ensures var m := map[0 := Header(true, 124, 1000), 124 := Header(false, 1000, 0), 1000 := Header(true, 0, 124)];
            var g, size := Layout(HEADER, 1000, true), WORD_LIMIT - 12;
            && Shaped(m, g) && Coalesced(m, g) && Needed(size) == size
            && GuardWraps(m, 0, size, g) && (base + HEADER + size) % WORD_LIMIT == base + 12
  {
    hide Shaped, Coalesced;
    var g := Layout(HEADER, 1000, true);
    var m0 := map[0 := Header(false, 1000, 1000), 1000 := Header(true, 0, 0)];
    FreshPool(m0, g);
    assert Taken(m0, 0, 100, g)
      == map[0 := Header(true, 124, 1000), 124 := Header(false, 1000, 0), 1000 := Header(true, 0, 124)];
    TakenKeepsShape(m0, 0, 100, g);
    assert (base + HEADER + (WORD_LIMIT - 12)) % WORD_LIMIT == base + 12;
  }

  lemma FreshPool(m: Headers, g: Layout)
    requires g.header == HEADER && g.closed && HEADER <= g.end && g.end % 4 == 0
    requires m == map[0 := Header(false, g.end, g.end), g.end := Header(true, 0, 0)]
    ensures Shaped(m, g) && Coalesced(m, g)
  {
  }

  /** The block after `a` is free and leaves more than the smallest payload when `a` grows. */
  predicate Extensible(m: Headers, a: nat, size: nat, g: Layout)
    requires a in m && m[a].next in m
  {
    !m[m[a].next].used && Payload(m, m[a].next, g) + Payload(m, a, g) > size + MIN_SIZE
  }

  predicate StaysPut(m: Headers, a: nat, size: nat, g: Layout)
    requires a in m && m[a].next in m
  {
    size <= Payload(m, a, g) || Extensible(m, a, size, g)
  }

  /** The headers after resizing block `a` where it is. */
  function Resized(m: Headers, a: nat, size: nat, g: Layout): Headers
    requires a in m && m[a].next in m
  {
    var at := a + g.header + size;
    if size > Payload(m, a, g) then if m[m[a].next].next in m then Grown(m, a, at, g) else m
    else if size + g.header + MIN_SIZE >= Payload(m, a, g) then m
    else Shrunk(m, a, at, g)
  }

  /** rt_memheap_alloc answers a request of a size that needs no rounding. */
  ghost predicate Served(m: Headers, available: int, size: nat, g: Layout) {
    size < available && exists b :: b in m && b < g.end && !m[b].used && Payload(m, b, g) >= size
  }

  /** What becomes of live memory: the result, by the state before. */
  ghost predicate Decided(m: Headers, available: int, a: nat, size: nat, g: Layout, r: Outcome) {
    && a in m && m[a].next in m
    && (r.Wrapped? <==> GuardWraps(m, a, size, g))
    && (r == Done(Some(a + g.header)) <==> StaysPut(m, a, size, g))
    && (r == Done(None) <==> !GuardWraps(m, a, size, g) && !StaysPut(m, a, size, g) && !Served(m, available, size, g))
  }

  /** Memory of the size, starting with the bytes of the old one; nothing else that was live
      has changed, and the old block is given up if it is another one. */
  ghost predicate HandsOver(m: Headers, d: seq<byte>, a: nat, m': Headers, d': seq<byte>, p: nat, size: nat,
      g: Layout)
  {
    && p >= HEADER && p - HEADER in m' && p - HEADER < g.end && m'[p - HEADER].used
    && size <= Payload(m', p - HEADER, g) <= size + HEADER + MIN_SIZE
    && LiveKept(m, d, m', d', g, a) && (p != a + HEADER ==> a !in m' || !m'[a].used)
    && a in m && Payload(m, a, g) >= 0 && Carried(d, a + HEADER, d', p, Min(size, Payload(m, a, g)))
  }

  /** Memory that was free. */
  ghost predicate Allots(m: Headers, m': Headers, p: nat, size: nat, g: Layout) {
    && p >= HEADER && p - HEADER in m && !m[p - HEADER].used && p - HEADER < g.end
    && p - HEADER in m' && m'[p - HEADER].used && Payload(m', p - HEADER, g) >= size
  }

  /** The payload covers the request unless aligning the request has wrapped. */
  predicate Covers(m: Headers, p: nat, request: nat, g: Layout) {
    p >= HEADER && p - HEADER in m && (request <= Payload(m, p - HEADER, g) <==> request <= WORD_LIMIT - 4)
  }

  predicate IsResized(m: Headers, a: nat, size: nat, g: Layout, m': Headers) {
    a in m && m[a].next in m && m' == Resized(m, a, size, g)
  }

  /** The free list after resizing in place: the block behind leaves it if it is free, and what
      is cut off or left over of it enters at the front. */
  function ShrunkOrder(m: Headers, a: nat, size: nat, order: seq<int>): seq<int>
    requires a in m && m[a].next in m
  {
    [a + HEADER + size] + if m[m[a].next].used then order else Leave(order, m[a].next)
  }

  function GrownOrder(m: Headers, a: nat, size: nat, order: seq<int>): seq<int>
    requires a in m
  {
    [a + HEADER + size] + Leave(order, m[a].next)
  }

  /** The room behind a pointer handed out. */
  function Room(m: Headers, p: nat, g: Layout): int {
    if p >= HEADER && p - HEADER in m then Payload(m, p - HEADER, g) else 0
  }

  // ----- the heap in place -----

  class Heap {
    /** pool_size, headers and all. */
    const poolSize: nat
    const data: array<byte>
    /** next_free and prev_free, list header included. */
    const free: Links
    var hdr: Headers
    var available: int
    var maxUsed: int
    /** The free blocks in list order, and `available` after each operation so far. */
    ghost var order: seq<int>
    ghost var seen: seq<int>

    function G(): Layout
      requires poolSize >= 2 * HEADER
    {
      Layout(HEADER, poolSize - HEADER, true)
    }

    ghost predicate Valid()
      reads this, free
    {
      && data.Length == poolSize && poolSize % 4 == 0 && 2 * HEADER < poolSize < WORD_LIMIT
      && Shaped(hdr, G()) && Coalesced(hdr, G())
      && free.Holds(LIST, order) && ListsFree(hdr, order, G())
      && available == Total(hdr, 0, G(), false, HEADER)
      && Peak(seen, poolSize, maxUsed) && |seen| > 0 && seen[|seen| - 1] == available
    }

    ghost predicate Live(p: nat)
      reads this
    {
      HEADER <= p && p - HEADER in hdr && p - HEADER < poolSize - HEADER && hdr[p - HEADER].used
    }

    /** rt_memheap_init. */
    constructor (poolSize: nat)
      requires poolSize % 4 == 0 && 2 * HEADER < poolSize < WORD_LIMIT
      ensures Valid() && this.poolSize == poolSize && fresh(data) && fresh(free)
      ensures available == poolSize - 2 * HEADER && maxUsed == poolSize - available && order == [0]
      ensures seen == [available]
    {
      this.poolSize := poolSize;
      data := new byte[poolSize](_ => 0);
      var links := new Links();
      links.Init(LIST);
      var end := poolSize - HEADER;
      hdr := map[0 := Header(false, end, end), end := Header(true, 0, 0)];
      links.InsertAfter(LIST, 0, LIST, [], 0);
      free := links;
      available, maxUsed := poolSize - 2 * HEADER, 2 * HEADER;
      order, seen := [0], [poolSize - 2 * HEADER];
      new;
      assert Insert([], 0, 0) == [0];
      FreshPool(hdr, G());
      assert Total(hdr, end, G(), false, HEADER) == 0;
    }

    /** Put a block at the front of the free list. */
    method Enlist(b: nat)
      requires free.Holds(LIST, order) && (b as int) !in order
      modifies free, `order
      ensures order == [b] + old(order) && free.Holds(LIST, order)
    {
      free.InsertAfter(LIST, b, LIST, order, 0);
      assert Insert(order, 0, b) == [b] + order;
      order := [b] + order;
    }

    /** Take the block at position `i` out of the free list. */
    method Delist(b: nat, ghost i: nat)
      requires free.Holds(LIST, order) && i < |order| && order[i] == b
      modifies free, `order
      ensures order == Without(old(order), i) && free.Holds(LIST, order)
      ensures forall z {:trigger z in order} :: z in order <==> z in old(order) && z != b
    {
      WithoutNoDup(order, i);
      free.Remove(b, LIST, order, i);
      order := Without(order, i);
    }

    /** The search loop of rt_memheap_alloc. */
    method Search(size: nat) returns (found: bool, a: nat, ghost i: nat)
      requires free.Holds(LIST, order) && 2 * HEADER < poolSize && ListsFree(hdr, order, G()) && 0 < size
      ensures found == FirstInList(hdr, order, size, G()).Some?
      ensures found ==> FirstInList(hdr, order, size, G()) == Some(i) && i < |order| && order[i] == a
      ensures found ==> a in hdr && a < G().end && Payload(hdr, a, G()) >= size
      ensures FirstFitting(hdr, order, size, G(), if found then Some(i) else None)
    {
      hide FirstFitting, NoDup, FirstInList, Shift;
      FirstInListFits(hdr, order, size, G());
      SearchStart(hdr, order, size, G());
      var freeSize: int := 0;
      ChainNeighbours(free.next, free.prev, LIST, order, LIST, 0);
      var item := free.next[LIST];
      i := 0;
      while item != LIST && freeSize < size
        invariant i <= |order| && item == Right(order, i, LIST)
        invariant freeSize < size ==>
                    FirstInList(hdr, order, size, G()) == Shift(FirstInList(hdr, order[i..], size, G()), i)
        invariant freeSize >= size ==>
                    && i < |order| && order[i] >= 0 && order[i] in hdr && order[i] < G().end
                    && FirstInList(hdr, order, size, G()) == Some(i) && Payload(hdr, order[i], G()) >= size
        decreases |order| - i, size - freeSize
      {
        assert item == order[i] && item in order;
        freeSize := hdr[item].next - (item + HEADER);
        assert freeSize == Payload(hdr, item, G());
        SearchStep(hdr, order, i, size, G());
        if freeSize < size {
          ChainNeighbours(free.next, free.prev, LIST, order, LIST, i + 1);
          item := free.next[item];
          i := i + 1;
        }
      }
      SearchEnd(hdr, order, i, size, G());
      found := freeSize >= size;
      a := if found then item else 0;
    }

    /** The rest of rt_memheap_alloc: split the block if the remainder is worth a header. */
    method Take(a: nat, ghost i: nat, size: nat)
      requires 2 * HEADER < poolSize && i < |order| && order[i] == a && a in hdr && a < G().end
      requires Valid() && size % 4 == 0 && Payload(hdr, a, G()) >= size
      modifies this, free, data
      ensures old(hdr)[a].next in old(hdr) && hdr == Taken(old(hdr), a, size, G())
      ensures order == TakenOrder(old(hdr), old(order), i, size, G())
      ensures a in hdr && hdr[a].used && size <= Payload(hdr, a, G()) < size + HEADER + MIN_SIZE
      ensures maxUsed == Max(old(maxUsed), poolSize - available) && seen == old(seen) + [available]
      ensures Valid()
      ensures LiveKept(old(hdr), old(data[..]), hdr, data[..], G(), G().end)
    {
      hide Forward, Ordered, Linked, Coalesced, LiveKept, Taken, TakenOrder, NoDup, Peak, ListsFree;
      ghost var m, s := hdr, order;
      TakenListsFree(m, s, i, a, size, G());
      hide Ring;
      TakenKeepsShape(m, a, size, G());
      TakenTotal(m, a, size, G(), false, HEADER);
      SplitOrTake(a, i, size);
      TakenKeepsLive(m, a, size, G(), old(data[..]), data[..]);
      PeakGrows(seen, poolSize, maxUsed, available);
      if poolSize - available > maxUsed { maxUsed := poolSize - available; }
      seen := seen + [available];
    }

    method SplitOrTake(a: nat, ghost i: nat, size: nat)
      requires data.Length == poolSize && 2 * HEADER < poolSize && free.Holds(LIST, order)
      requires i < |order| && order[i] == a && a in hdr && a < G().end && !hdr[a].used && Payload(hdr, a, G()) >= size
      requires hdr[a].next in hdr && hdr[a].next <= G().end
      requires Payload(hdr, a, G()) >= size + HEADER + MIN_SIZE ==> a + HEADER + size !in Without(order, i)
      modifies `hdr, `available, `order, free, data
      ensures hdr == Taken(old(hdr), a, size, G()) && order == TakenOrder(old(hdr), old(order), i, size, G())
      ensures free.Holds(LIST, order) && a in hdr && hdr[a].used
      ensures size <= Payload(hdr, a, G()) < size + HEADER + MIN_SIZE
      ensures available
              == old(available) - (hdr[a].next - a - HEADER) - (if hdr[a].next != old(hdr)[a].next then HEADER else 0)
      ensures forall i :: 0 <= i < data.Length && !(a <= i < old(hdr)[a].next) ==> data[i] == old(data[i])
    {
      hide Ring;
      var freeSize := hdr[a].next - (a + HEADER);
      if freeSize >= size + HEADER + MIN_SIZE {
        var new_ := a + size + HEADER;
        CutAt(a, new_);
        Delist(a, i);
        Enlist(new_);
        available := available - size - HEADER;
      } else {
        available := available - freeSize;
        Delist(a, i);
      }
      hdr := hdr[a := hdr[a].(used := true)];
      assert hdr == Taken(old(hdr), a, size, G());
    }

    /** rt_memheap_alloc: the first block of the free list that fits, split if the rest is
        worth a header. The payload covers the request exactly when aligning does not wrap. */
    method Alloc(request: nat) returns (p: Option<nat>)
      requires Valid() && request < WORD_LIMIT
      modifies this, free, data
      ensures Valid() && maxUsed == Max(old(maxUsed), poolSize - available)
      ensures LiveKept(old(hdr), old(data[..]), hdr, data[..], G(), G().end)
      ensures var size := Needed(request);
              var hit := if size < old(available) then FirstInList(old(hdr), old(order), size, G()) else None;
              match hit
              case None => p == None && hdr == old(hdr) && order == old(order) && data[..] == old(data[..])
                           && available == old(available) && seen == old(seen)
              case Some(i) =>
                && i < |old(order)| && old(order)[i] >= 0
                && var a: nat := old(order)[i];
                && p == Some(a + HEADER) && a in old(hdr) && !old(hdr)[a].used && a < G().end
                && old(hdr)[a].next in old(hdr) && hdr == Taken(old(hdr), a, size, G())
                && order == TakenOrder(old(hdr), old(order), i, size, G()) && seen == old(seen) + [available]
                && a in hdr && hdr[a].used && size <= Payload(hdr, a, G()) < size + HEADER + MIN_SIZE
                && (request <= Payload(hdr, a, G()) <==> request <= WORD_LIMIT - 4)
      ensures p.Some? <==> Served(old(hdr), old(available), Needed(request), G())
      ensures p.Some? ==>
                var i := FirstInList(old(hdr), old(order), Needed(request), G());
                i.Some? && FirstFitting(old(hdr), old(order), Needed(request), G(), i)
      ensures p.Some? ==>
                var size, i := Needed(request), FirstInList(old(hdr), old(order), Needed(request), G());
                i.Some? && i.value < |old(order)| && Allotted(old(hdr), old(order), i.value, size, p.value, order, G())
    {
      hide Forward, Ordered, Linked, Coalesced, LiveKept, Taken, TakenOrder, NoDup, FirstInList, FirstFitting, Allotted;
      NothingFits(hdr, order, Needed(request), G());
      AlignCovers(request);
      Nothing(hdr, data[..], G(), G().end);
      FreeTotalBounds(hdr, 0, G());
      p := None;
      var size := Align(request);
      if size < MIN_SIZE { size := MIN_SIZE; }
      if size < available {
        var found, a, i := Search(size);
        if found {
          assert a in order;
          TakenFromList(hdr, order, i, size, G());
          Take(a, i, size);
          p := Some(a + HEADER);
        }
      }
    }

    /** rt_memheap_free. */
    method Free(p: Option<nat>)
      requires Valid() && (p.Some? ==> Live(p.value))
      modifies this, free
      ensures p.None? ==> hdr == old(hdr) && order == old(order) && available == old(available) && seen == old(seen)
      ensures p.Some? ==>
                var a := p.value - HEADER;
                && hdr == Freed(old(hdr), a, G()) && old(hdr)[a].next in old(hdr)
                && order == FreedOrder(old(hdr), a, old(order)) && seen == old(seen) + [available]
                && LiveKept(old(hdr), data[..], hdr, data[..], G(), a) && (a !in hdr || !hdr[a].used)
      ensures Valid() && maxUsed == old(maxUsed) && available >= old(available)
    {
      hide Ring, Forward, Ordered, Linked, Coalesced, CoalescedBut, LiveKept, Peak, ListsFree, Freed;
      hide FreedOrder, MergedLeft;
      if p.None? { return; }
      var a := p.value - HEADER;
      ghost var m, s := hdr, order;
      NextIsBlock(m, a, G());
      FreedKeepsShape(m, a, G());
      FreedTotal(m, a, G());
      FreedKeepsLive(m, a, G(), data[..]);
      MergedLeftKeepsShape(m, a, G());
      HeldOnce(free.next, free.prev, s);
      FreedListsFree(m, a, s, G());
      var h, insert := JoinLeft(a);
      JoinRight(h, insert, m, a);
      PeakKept(seen, poolSize, maxUsed, available);
      seen := seen + [available];
    }

    /** Mark the block unused and join it to a free left neighbour. */
    method JoinLeft(a: nat) returns (h: nat, insert: bool)
      requires 2 * HEADER < poolSize && a in hdr && a < G().end && hdr[a].used && hdr[a].next in hdr
      requires Shaped(hdr, G()) && Coalesced(hdr, G())
      modifies `hdr, `available
      ensures hdr == MergedLeft(old(hdr), a) && h == LeftHole(old(hdr), a) && insert == (h == a)
      ensures available == old(available) + Payload(old(hdr), a, G()) + (if h != a then HEADER else 0)
    {
      hide Forward, Ordered, Coalesced;
      ghost var m := hdr;
      if a > 0 { PrevIsPredecessor(m, 0, a, G()); }
      hide Linked;
      hdr := hdr[a := hdr[a].(used := false)];
      available := available + (hdr[a].next - a - HEADER);
      h, insert := a, true;
      var p := hdr[a].prev;
      if !hdr[p].used {
        available := available + HEADER;
        var n := hdr[a].next;
        hdr := hdr[p := hdr[p].(next := n)];
        hdr := hdr[n := hdr[n].(prev := p)] - {a};
        h, insert := p, false;
      }
      assert hdr == MergedLeft(m, a);
    }

    /** Join the unused block `h` to a free right neighbour, and list it if it is not
        listed already. */
    method JoinRight(h: nat, insert: bool, ghost m: Headers, ghost a: nat)
      requires 2 * HEADER < poolSize && a in m && a < G().end && m[a].used && m[a].next in m
      requires h == LeftHole(m, a) && insert == (h == a) && h in hdr && h < G().end && !hdr[h].used && h < m[a].next
      requires hdr == MergedLeft(m, a) && hdr[h].next == m[a].next && m[a].next in hdr && Tiled(hdr, G())
      requires hdr[m[a].next].used == m[m[a].next].used && m[G().end].used
      requires free.Holds(LIST, order) && ListsFree(m, order, G())
      modifies `hdr, `available, `order, free
      ensures hdr == Freed(m, a, G()) && order == FreedOrder(m, a, old(order)) && free.Holds(LIST, order)
      ensures available == old(available) + (if !m[m[a].next].used then HEADER else 0)
    {
      hide Forward, Ordered, MergedLeft, NoDup;
      ghost var s := order;
      var r := hdr[h].next;
      NextIsBlock(hdr, h, G());
      if !hdr[r].used {
        available := available + HEADER;
        NextIsBlock(hdr, r, G());
        var after := hdr[r].next;
        hdr := hdr[after := hdr[after].(prev := h)];
        hdr := hdr[h := hdr[h].(next := after)] - {r};
        ghost var k := Listed(m, order, r, G());
        LeaveIsWithout(order, k);
        LeaveMembers(order, r);
        Delist(r, k);
      }
      assert hdr == Freed(m, a, G());
      if insert { Enlist(h); }
    }

    /** The growing branch of rt_memheap_realloc. */
    method Grow(a: nat, newsize: nat)
      requires Valid() && a in hdr && a < G().end && hdr[a].used && newsize % 4 == 0 && newsize > Payload(hdr, a, G())
      requires hdr[a].next in hdr && Extensible(hdr, a, newsize, G())
      modifies this, free, data
      ensures old(hdr)[a].next in old(hdr) && hdr == Resized(old(hdr), a, newsize, G())
      ensures a in hdr && hdr[a].used && Payload(hdr, a, G()) == newsize
      ensures Payload(old(hdr), a, G()) >= 0
      ensures Carried(old(data[..]), a + HEADER, data[..], a + HEADER, Payload(old(hdr), a, G()))
      ensures LiveKept(old(hdr), old(data[..]), hdr, data[..], G(), a)
      ensures maxUsed == Max(old(maxUsed), poolSize - available) && seen == old(seen) + [available]
      ensures order == GrownOrder(old(hdr), a, newsize, old(order))
      ensures Valid()
    {
      hide Forward, Ordered, Linked, Coalesced, LiveKept, NoDup, Peak, Total, Cut, Merge, Carried;
      ghost var m, s := hdr, order;
      var n, at := hdr[a].next, a + HEADER + newsize;
      NextIsBlock(m, a, G());
      NextIsBlock(m, n, G());
      GrownKeepsShape(m, a, at, G());
      GrownTotal(m, a, at, G());
      ghost var k := Listed(m, order, n, G());
      HeldOnce(free.next, free.prev, order);
      LeaveIsWithout(order, k);
      GrownListsFree(m, a, at, G(), s, k);
      hide ListsFree, Grown, Ring;
      Regrow(a, n, at, newsize - (n - (a + HEADER)), k);
      GrownKeepsLive(m, a, at, G(), old(data[..]), data[..]);
      CarriedInPlace(old(data[..]), data[..], a + HEADER, n - (a + HEADER));
      PeakGrows(seen, poolSize, maxUsed, available);
      if poolSize - available > maxUsed { maxUsed := poolSize - available; }
      seen := seen + [available];
    }

    /** Replace the free block `n` after `a` by one at `at`. */
    method Regrow(a: nat, n: nat, at: nat, more: nat, ghost k: nat)
      requires 2 * HEADER < poolSize && a in hdr && hdr[a].next == n && n in hdr && hdr[n].next in hdr
      requires a < n < at && at < hdr[n].next && at + HEADER <= poolSize == data.Length
      requires free.Holds(LIST, order) && k < |order| && order[k] == n && (at as int) !in Without(order, k)
      modifies `hdr, `available, `order, free, data
      ensures hdr == Grown(old(hdr), a, at, G()) && available == old(available) - more
      ensures order == [at] + Without(old(order), k) && free.Holds(LIST, order)
      ensures forall i :: 0 <= i < data.Length && !(at <= i < at + HEADER) ==> data[i] == old(data[i])
    {
      available := available - more;
      Delist(n, k);
      var after := hdr[n].next;
      hdr := hdr[after := hdr[after].(prev := a)];
      hdr := hdr[a := hdr[a].(next := after)] - {n};
      CutAt(a, at);
      Enlist(at);
      assert hdr == Grown(old(hdr), a, at, G());
    }

    /** The splitting branch of rt_memheap_realloc. */
    method ShrinkTo(a: nat, newsize: nat)
      requires Valid() && a in hdr && a < G().end && hdr[a].used && newsize % 4 == 0
      requires newsize + HEADER + MIN_SIZE < Payload(hdr, a, G()) && hdr[a].next in hdr
      modifies this, free, data
      ensures old(hdr)[a].next in old(hdr) && hdr == Resized(old(hdr), a, newsize, G())
      ensures a in hdr && hdr[a].used && Payload(hdr, a, G()) == newsize
      ensures Carried(old(data[..]), a + HEADER, data[..], a + HEADER, newsize)
      ensures LiveKept(old(hdr), old(data[..]), hdr, data[..], G(), a)
      ensures maxUsed == old(maxUsed) && seen == old(seen) + [available]
      ensures order == ShrunkOrder(old(hdr), a, newsize, old(order))
      ensures Valid()
    {
      hide Ring, Forward, Ordered, Linked, Coalesced, LiveKept, NoDup, Peak, ListsFree, Carried, Shrunk;
      hide Plugged, Cut, Total, FreeAfter, PlugForward, CoalescedBut, Merge;
      ghost var m, s := hdr, order;
      var at := a + HEADER + newsize;
      NextIsBlock(m, a, G());
      ShrunkKeepsShape(m, a, at, G());
      ShrunkFreeTotal(m, a, at, G());
      SplitOff(a, at);
      ShrunkKeepsLive(m, a, at, G(), old(data[..]), data[..]);
      CarriedInPlace(old(data[..]), data[..], a + HEADER, newsize);
      PeakKept(seen, poolSize, maxUsed, available);
      seen := seen + [available];
    }

    /** Put a free block's header at `at`, inside block `a`. */
    method CutAt(a: nat, at: nat)
      requires 2 * HEADER < poolSize == data.Length && a in hdr && hdr[a].next in hdr
      requires a < at < hdr[a].next && at + HEADER <= poolSize
      modifies `hdr, data
      ensures hdr == Cut(old(hdr), a, at, G())
      ensures forall i :: 0 <= i < data.Length && !(at <= i < at + HEADER) ==> data[i] == old(data[i])
    {
      Overwrite(data, at, HEADER);
      hdr := hdr[at := Header(false, hdr[a].next, a)];
      hdr := hdr[hdr[a].next := hdr[hdr[a].next].(prev := at)];
      hdr := hdr[a := hdr[a].(next := at)];
      assert hdr == Cut(old(hdr), a, at, G());
    }

    /** Cut the used block `a` at `at`, join the rest to a free right neighbour, and list it. */
    method SplitOff(a: nat, at: nat)
      requires 2 * HEADER < poolSize == data.Length && a in hdr && a < G().end && hdr[a].used && hdr[a].next in hdr
      requires Shaped(hdr, G()) && Coalesced(hdr, G()) && ListsFree(hdr, order, G()) && free.Holds(LIST, order)
      requires a + HEADER <= at && at + HEADER <= hdr[a].next && at % 4 == 0
      modifies `hdr, `available, `order, free, data
      ensures hdr == Shrunk(old(hdr), a, at, G()) && ListsFree(hdr, order, G()) && free.Holds(LIST, order)
      ensures var n := old(hdr)[a].next;
              order == [at] + if old(hdr)[n].used then old(order) else Leave(old(order), n)
      ensures available
              == old(available) + old(hdr)[a].next - at - (if old(hdr)[old(hdr)[a].next].used then HEADER else 0)
      ensures forall i :: 0 <= i < data.Length && !(at <= i < at + HEADER) ==> data[i] == old(data[i])
    {
      hide Forward, Ordered, Linked, Coalesced, NoDup, ListsFree, Ring;
      ghost var m, s := hdr, order;
      var n := hdr[a].next;
      NextIsBlock(m, a, G());
      if n < G().end { NextIsBlock(m, n, G()); }
      ShrunkIsForward(m, a, at, G());
      CutAt(a, at);
      if !hdr[hdr[at].next].used {
        available := available - (hdr[n].next - n - HEADER);
        var after := hdr[n].next;
        hdr := hdr[after := hdr[after].(prev := at)];
        hdr := hdr[at := hdr[at].(next := after)] - {n};
        ghost var k := Listed(m, order, n, G());
        HeldOnce(free.next, free.prev, order);
        LeaveIsWithout(order, k);
        Delist(n, k);
      }
      assert hdr == PlugForward(Cut(m, a, at, G()), at, G());
      ShrunkListsFree(m, a, at, G(), s, order);
      Enlist(at);
      available := available + (hdr[at].next - at - HEADER);
    }

    /** rt_memheap_realloc: release, allocate, grow in place, move, keep or shrink in place.
        A resized block never moves when it need not; memory handed out for live memory starts
        with the bytes that were there, as many as both sizes have; every other live block
        keeps its extent and its bytes. The model stops at `Wrapped`. */
    method Realloc(p: Option<nat>, request: nat) returns (r: Outcome)
      requires Valid() && request < WORD_LIMIT && (p.Some? ==> Live(p.value))
      modifies this, free, data
      ensures r.Wrapped? ==> request > 0 && p.Some?
      ensures request == 0 ==> r == Done(None) && data[..] == old(data[..])
      ensures request == 0 && p.Some? ==> hdr == Freed(old(hdr), p.value - HEADER, G())
      ensures p.None? && r == Done(None) ==>
                hdr == old(hdr) && order == old(order) && available == old(available) && seen == old(seen)
      ensures request > 0 && p.None? ==>
                r.Done? && (r.p.Some? <==> Served(old(hdr), old(available), Needed(request), G()))
      ensures p.None? && r.Done? && r.p.Some? ==> Allots(old(hdr), hdr, r.p.value, Needed(request), G())
      ensures r.Done? && r.p.Some? ==> Covers(hdr, r.p.value, request, G())
      ensures p.None? ==> LiveKept(old(hdr), old(data[..]), hdr, data[..], G(), G().end)
      ensures request > 0 && p.Some? ==>
                Decided(old(hdr), old(available), p.value - HEADER, Needed(request), G(), r)
      ensures request > 0 && p.Some? && r == Done(p) ==>
                IsResized(old(hdr), p.value - HEADER, Needed(request), G(), hdr)
      ensures request > 0 && p.Some? && r == Done(p) ==>
                var was, size := Room(old(hdr), p.value, G()), Needed(request);
                Room(hdr, p.value, G()) == if size <= was <= size + HEADER + MIN_SIZE then was else size
      ensures request > 0 && p.Some? && (r.Wrapped? || r == Done(None)) ==>
                && hdr == old(hdr) && order == old(order) && available == old(available)
                && seen == old(seen) && data[..] == old(data[..])
      ensures request > 0 && p.Some? && r.Done? && r.p.Some? ==>
                HandsOver(old(hdr), old(data[..]), p.value - HEADER, hdr, data[..], r.p.value, Needed(request), G())
      ensures old(seen) <= seen && |seen| <= |old(seen)| + 2
      ensures Valid() && old(maxUsed) <= maxUsed
    {
      hide Ring, Forward, Ordered, Linked, Coalesced, Resized, FirstInList, Freed, Taken, TakenOrder, FreedOrder;
      hide ListsFree, NoDup, Carried, LiveKept, Peak, Total, Shrunk, Grown, Cut, Merge, FirstFitting, Served, Decided;
      if request == 0 {
        Free(p);
        if p.None? { Nothing(hdr, data[..], G(), G().end); }
        return Done(None);
      }
      AlignCovers(request);
      var newsize := Align(request);
      if newsize < MIN_SIZE { newsize := MIN_SIZE; }
      if p.None? {
        AlignCovers(newsize);
        var q := Alloc(newsize);
        r := Done(q);
        return;
      }
      r := Resize(p.value, newsize);
    }

    /** rt_memheap_realloc of live memory to an aligned size. */
    method Resize(p: nat, newsize: nat) returns (r: Outcome)
      requires newsize % 4 == 0 && MIN_SIZE <= newsize < WORD_LIMIT && Live(p)
      requires Valid()
      modifies this, free, data
      ensures Decided(old(hdr), old(available), p - HEADER, newsize, G(), r)
      ensures r == Done(Some(p)) ==> IsResized(old(hdr), p - HEADER, newsize, G(), hdr)
      ensures r == Done(Some(p)) ==>
                var was := Room(old(hdr), p, G());
                Room(hdr, p, G()) == if newsize <= was <= newsize + HEADER + MIN_SIZE then was else newsize
      ensures r.Wrapped? || r == Done(None) ==>
                && hdr == old(hdr) && order == old(order) && available == old(available)
                && seen == old(seen) && data[..] == old(data[..])
      ensures r.Done? && r.p.Some? ==>
                HandsOver(old(hdr), old(data[..]), p - HEADER, hdr, data[..], r.p.value, newsize, G())
      ensures old(seen) <= seen && |seen| <= |old(seen)| + 2
      ensures Valid() && old(maxUsed) <= maxUsed
    {
      hide Ring, Forward, Ordered, Linked, Coalesced, Resized, ListsFree, NoDup, Carried, LiveKept, Peak, Total;
      hide Shrunk, Grown, Cut, Merge, Served;
      var a := p - HEADER;
      NextIsBlock(hdr, a, G());
      var oldsize := hdr[a].next - a - HEADER;
      if newsize > oldsize {
        var n := hdr[a].next;
        if !hdr[n].used {
          NextIsBlock(hdr, n, G());
          if GrowGuard(oldsize, hdr[n].next - n - HEADER, newsize) {
            if newsize > WORD_LIMIT - 16 { return Wrapped; }
            Grow(a, newsize);
            return Done(Some(p));
          }
        }
        var q := Move(a, oldsize, newsize);
        r := Done(q);
        return;
      }
      if newsize + HEADER + MIN_SIZE >= oldsize {
        Keeps(newsize, a);
        return Done(Some(p));
      }
      ShrinkTo(a, newsize);
      return Done(Some(p));
    }

    /** Keeping a block as it is changes nothing. */
    lemma Keeps(size: nat, a: nat)
      requires 2 * HEADER < poolSize == data.Length && a in hdr && hdr[a].next in hdr && hdr[a].next <= poolSize
      requires size <= Payload(hdr, a, G()) <= size + HEADER + MIN_SIZE
      ensures Resized(hdr, a, size, G()) == hdr && LiveKept(hdr, data[..], hdr, data[..], G(), a)
      ensures Carried(data[..], a + HEADER, data[..], a + HEADER, size)
    {
    }

    /** The moving branch of rt_memheap_realloc: allocate, copy, release. */
    method Move(a: nat, oldsize: nat, newsize: nat) returns (r: Option<nat>)
      requires Valid() && a in hdr && a < G().end && hdr[a].used && oldsize == Payload(hdr, a, G())
      requires newsize % 4 == 0 && MIN_SIZE <= newsize < WORD_LIMIT && oldsize < newsize
      modifies this, free, data
      ensures r.Some? <==> Served(old(hdr), old(available), newsize, G())
      ensures r.None? ==>
                && hdr == old(hdr) && order == old(order) && available == old(available)
                && seen == old(seen) && data[..] == old(data[..])
      ensures r.Some? ==>
                && HandsOver(old(hdr), old(data[..]), a, hdr, data[..], r.value, newsize, G())
                && r.value != a + HEADER
      ensures old(seen) <= seen && |seen| <= |old(seen)| + 2
      ensures Valid() && old(maxUsed) <= maxUsed
    {
      hide Ring, Forward, Ordered, Linked, Coalesced, Taken, TakenOrder, FirstInList, LiveKept, Freed;
      hide FreedOrder, ListsFree, NoDup, Peak, Carried, Served, FirstFitting;
      ghost var m0, d0 := hdr, data[..];
      AlignCovers(newsize);
      NextIsBlock(hdr, a, G());
      r := Alloc(newsize);
      if r.None? { return; }
      var n := if oldsize < newsize then oldsize else newsize;
      ghost var b := r.value - HEADER;
      CopyPayload(r.value, a, n, m0, d0);
      ghost var m1, d2 := hdr, data[..];
      Free(Some(a + HEADER));
      LiveThenLive(m0, d0, m1, hdr, d2, G(), a);
      LiveBlock(m1, d2, hdr, d2, G(), a, b);
    }

    /** The copy of rt_memheap_realloc: from the old block into the one just taken. */
    method CopyPayload(dst: nat, a: nat, n: nat, ghost m0: Headers, ghost d0: seq<byte>)
      requires Valid() && HEADER <= dst && a in m0 && a < G().end && m0[a].used && n <= Payload(m0, a, G())
      requires var b := dst - HEADER; b in m0 && !m0[b].used && b in hdr && b < G().end && n <= Payload(hdr, b, G())
      requires LiveKept(m0, d0, hdr, data[..], G(), G().end) && |d0| == data.Length
      modifies data
      ensures LiveKept(m0, d0, hdr, data[..], G(), G().end)
      ensures a in hdr && hdr[a].used && hdr[a].next == m0[a].next && a + HEADER + n <= |d0|
      ensures Carried(d0, a + HEADER, data[..], dst, n)
    {
      hide Forward, Ordered, Linked, Coalesced, LiveKept, ListsFree, NoDup, Peak;
      ghost var b, d1 := dst - HEADER, data[..];
      LiveBlock(m0, d0, hdr, d1, G(), G().end, a);
      NextIsBlock(hdr, b, G());
      NextIsBlock(hdr, a, G());
      Beside(hdr, b, a);
      Copy(data, dst, a + HEADER, n);
      CopyKeepsLive(m0, d0, hdr, d1, data[..], G(), b, n);
    }
  }

  lemma HeldOnce(next: LinkMap, prev: LinkMap, s: seq<int>)
    requires Ring(next, prev, LIST, s)
    ensures NoDup(s)
  {
  }

  /** A value that uses no more of the pool than one already seen leaves the peak alone. */
  lemma PeakKept(seen: seq<int>, pool: nat, peak: int, v: int)
    requires Peak(seen, pool, peak) && |seen| > 0 && v >= seen[|seen| - 1]
    ensures Peak(seen + [v], pool, peak)
  {
    PeakGrows(seen, pool, peak, v);
  }
}
