/** The shell's heap: two address-sorted singly linked lists over a small pool, first fit with
    a garbage collector behind it, and joining of neighbours on release. */
module FinshHeap {
  import opened Basics
  import opened BlockList
  import opened RingList
  import opened SingleList

  const HEAP_MAX: nat := 128
  const HEADER: nat := 8
  const VARIABLE_MAX: nat := 8
  /** An entry of the global variable table: whether its type is known, and its value read as
      an address. */
  datatype Variable = Variable(typed: bool, ptr: int)

  // ----- sorted lists -----

  ghost predicate Ascending(s: seq<int>) {
    forall i, j :: 0 <= i < j < |s| ==> s[i] < s[j]
  }

  lemma {:induction false} NoRepeats(s: seq<int>)
    requires Ascending(s)
    ensures NoDup(s)
    decreases |s|
  {
    if s != [] { NoRepeats(s[1..]); }
  }

  /** Where `n` belongs in an ascending sequence. */
  function Pos(s: seq<int>, n: int): (p: nat)
    ensures p <= |s|
  {
    if s == [] || s[0] > n then 0 else 1 + Pos(s[1..], n)
  }

  function InsertSorted(s: seq<int>, n: int): seq<int> {
    Insert(s, Pos(s, n), n)
  }

  lemma {:induction false} PosSplits(s: seq<int>, n: int)
    requires Ascending(s) && n !in s
    ensures forall k :: 0 <= k < Pos(s, n) ==> s[k] < n
    ensures forall k :: Pos(s, n) <= k < |s| ==> n < s[k]
    decreases |s|
  {
    if s != [] && s[0] <= n {
      PosSplits(s[1..], n);
      assert s[0] in s && forall k :: 1 <= k < |s| ==> s[k] == s[1..][k - 1];
    }
  }

  lemma SameIndex(s: seq<int>, i: nat, j: nat)
    requires Ascending(s) && i < |s| && j < |s| && s[i] == s[j]
    ensures i == j
  {
  }

  lemma Climbs(s: seq<int>, i: nat)
    requires Ascending(s) && 0 < i < |s|
    ensures s[i - 1] < s[i]
  {
  }

  lemma InsertSortedIsSorted(s: seq<int>, n: int)
    requires Ascending(s) && n !in s
    ensures Ascending(InsertSorted(s, n)) && InsertSorted(s, n)[Pos(s, n)] == n
    ensures forall z {:trigger z in InsertSorted(s, n)} :: z in InsertSorted(s, n) <==> z in s || z == n
  {
    PosSplits(s, n);
    var p := Pos(s, n);
    assert s == s[..p] + s[p..];
  }

  lemma WithoutIsSorted(s: seq<int>, i: nat)
    requires Ascending(s) && i < |s|
    ensures Ascending(Without(s, i))
    ensures forall z {:trigger z in Without(s, i)} :: z in Without(s, i) <==> z in s && z != s[i]
  {
    assert s == s[..i] + [s[i]] + s[i + 1..];
  }

  // ----- the pool -----

  /** The highest block is free. */
  ghost predicate TopFree(m: Headers, g: Layout) {
    forall a {:trigger m[a].next} :: a in m && a < g.end && m[a].next == g.end ==> !m[a].used
  }

  ghost predicate Pool(m: Headers, g: Layout) {
    Shaped(m, g) && Coalesced(m, g) && TopFree(m, g)
  }

  /** So there is free memory above every block in use. */
  lemma {:induction false} FreeAbove(m: Headers, a: nat, g: Layout) returns (f: nat)
    requires Tiled(m, g) && TopFree(m, g) && a in m && a < g.end && m[a].used
    ensures f in m && a < f < g.end && !m[f].used
    decreases g.end - a
  {
    NextIsBlock(m, a, g);
    f := m[a].next;
    if m[f].used { f := FreeAbove(m, f, g); }
  }

  /** Allocation always cuts the block it takes, even when nothing is left over but a header. */
  function Carved(m: Headers, a: nat, size: nat, g: Layout): Headers
    requires a in m && m[a].next in m
  {
    var c := Cut(m, a, a + g.header + size, g);
    if a in c then SetUsed(c, a, true) else c
  }

  lemma CarvedKeepsPool(m: Headers, a: nat, size: nat, g: Layout)
    requires Pool(m, g) && a in m && a < g.end && !m[a].used && size % 4 == 0 && Payload(m, a, g) >= size + g.header
    ensures m[a].next in m && a + g.header + size !in m && Pool(Carved(m, a, size, g), g)
  {
    hide Forward, Ordered, Linked, Coalesced, TopFree;
    var at := a + g.header + size;
    NextIsBlock(m, a, g);
    CutKeepsShape(m, a, at, g);
    SameOffsetsSameShape(Cut(m, a, at, g), Carved(m, a, size, g), g);
    CarvedKeepsNeighbours(m, a, size, g);
  }

  lemma CarvedKeepsNeighbours(m: Headers, a: nat, size: nat, g: Layout)
    requires Pool(m, g) && a in m && a < g.end && !m[a].used && Payload(m, a, g) >= size + g.header
    requires m[a].next in m && a + g.header + size !in m
    ensures Coalesced(Carved(m, a, size, g), g) && TopFree(Carved(m, a, size, g), g)
  {
    hide Forward, Ordered, Linked;
    var at, r := a + g.header + size, Carved(m, a, size, g);
    forall x {:trigger r[r[x].next]} | x in r && x < g.end && r[x].next in r && r[x].next < g.end
      ensures r[x].used || r[r[x].next].used
    {
      if x == at {
        assert m[m[a].next].used;
      } else if x != a {
        NextIsBlock(m, x, g);
        assert m[x].used || m[m[x].next].used;
      }
    }
    forall x {:trigger r[x].next} | x in r && x < g.end && r[x].next == g.end ensures !r[x].used {
      if x != a && x != at { assert m[x].next == g.end; }
    }
  }

  lemma NextBlock(m: Headers, a: nat)
    requires Pool(m, POOL) && a in m && a < HEAP_MAX
    ensures m[a].next in m
  {
    NextIsBlock(m, a, POOL);
  }

  /** Carving puts that block in use with just the size asked for, and touches no other one in
      use. */
  lemma CarvedBlocks(m: Headers, a: nat, size: nat, g: Layout)
    requires Pool(m, g) && a in m && a < g.end && !m[a].used && Payload(m, a, g) >= size + g.header
    requires m[a].next in m
    ensures var r := Carved(m, a, size, g);
            && a in r && r[a].used && Payload(r, a, g) == size
            && (forall b {:trigger r[b]} :: b in r && r[b].used && b != a ==> b in m && m[b].used)
            && (forall b {:trigger m[b]} :: b in m && m[b].used ==> b in r && r[b].used && r[b].next == m[b].next)
  {
    hide Forward, Linked, Coalesced, TopFree;
    NextIsBlock(m, a, g);
    InsideIsNoBlock(m, a, a + g.header + size);
  }

  lemma ReleasedKeepsPool(m: Headers, a: nat, g: Layout)
    requires Pool(m, g) && a in m && a < g.end && m[a].used
    ensures Pool(Released(m, a, g), g)
  {
    hide Forward, Ordered, Linked, Coalesced, CoalescedBut;
    ReleasedKeepsShape(m, a, g);
    var m1 := SetUsed(m, a, false);
    PlugForwardKeepsShape(m1, a, g);
    var f := PlugForward(m1, a, g);
    PlugBackwardKeepsShape(f, a, g);
    var r := Released(m, a, g);
    assert forall x {:trigger r[x].next} :: x in r && r[x].used ==> x in m && m[x].used && r[x].next == m[x].next;
  }

  // ----- collecting garbage -----

  ghost predicate Pointed(vars: seq<Variable>, b: int) {
    exists i :: 0 <= i < |vars| && vars[i].typed && vars[i].ptr == b + HEADER
  }

  /** Release the blocks of `s` in order, except those a typed variable points to. */
  ghost function Swept(m: Headers, s: seq<int>, vars: seq<Variable>, g: Layout): Headers
    decreases |s|
  {
    if s == [] then m
    else if Pointed(vars, s[0]) || s[0] < 0 || s[0] !in m then Swept(m, s[1..], vars, g)
    else Swept(Released(m, s[0], g), s[1..], vars, g)
  }

  /** Of the used blocks exactly the ones pointed to are left, as large as they were. */
  lemma {:induction false} SweptKeepsPointed(m: Headers, s: seq<int>, vars: seq<Variable>, g: Layout)
    requires Pool(m, g) && Ascending(s)
    requires forall b {:trigger b in s} :: b in s ==> 0 <= b < g.end && b in m && m[b].used
    ensures Pool(Swept(m, s, vars, g), g)
    ensures forall b: nat {:trigger Swept(m, s, vars, g)[b]} ::
              b in Swept(m, s, vars, g) && b < g.end && Swept(m, s, vars, g)[b].used ==>
              b in m && m[b].used && (b in s ==> Pointed(vars, b))
    ensures forall b: nat {:trigger m[b]} :: b in m && b < g.end && m[b].used && (b in s ==> Pointed(vars, b)) ==>
              b in Swept(m, s, vars, g) && Swept(m, s, vars, g)[b].used && Swept(m, s, vars, g)[b].next == m[b].next
    decreases |s|
  {
    hide Pool, Released, Pointed;
    if s != [] {
      assert s[0] in s && forall z {:trigger z in s} {:trigger z in s[1..]} :: z in s <==> z == s[0] || z in s[1..];
      assert s[0] !in s[1..];
      if Pointed(vars, s[0]) {
        SweptKeepsPointed(m, s[1..], vars, g);
      } else {
        ReleasedBlocks(m, s[0], g);
        SweptKeepsPointed(Released(m, s[0], g), s[1..], vars, g);
      }
    }
  }

  /** Release frees that block and touches no other used one. */
  lemma ReleasedBlocks(m: Headers, a: nat, g: Layout)
    requires Pool(m, g) && a in m && a < g.end && m[a].used
    ensures var r := Released(m, a, g);
            && Pool(r, g)
            && (forall b {:trigger r[b]} :: b in r && r[b].used ==> b in m && m[b].used && b != a)
            && (forall b {:trigger m[b]} :: b in m && m[b].used && b != a ==>
                 b in r && r[b].used && r[b].next == m[b].next)
  {
    hide Forward, Ordered, Linked, Coalesced, CoalescedBut, TopFree;
    ReleasedKeepsPool(m, a, g);
    ReleasedKeepsShape(m, a, g);
    var m1 := SetUsed(m, a, false);
    PlugForwardKeepsShape(m1, a, g);
    PlugBackwardKeepsShape(PlugForward(m1, a, g), a, g);
  }

  // ----- the lists and the pool -----

  const POOL: Layout := Layout(HEADER, HEAP_MAX, false)

  /** A list holds exactly the blocks with that used flag. */
  ghost predicate Members(s: seq<int>, m: Headers, used: bool) {
    forall b {:trigger b in s} :: b in s <==> 0 <= b < HEAP_MAX && b in m && m[b].used == used
  }

  ghost predicate Lengths(length: LinkMap, m: Headers) {
    forall b: nat {:trigger length[b]} {:trigger b in length} :: b in m && b < HEAP_MAX ==>
        b in length && length[b] == m[b].next - b - HEADER
  }

  /** The lowest free block with that much payload, if there is one. */
  ghost predicate LowestFit(m: Headers, h: Option<nat>, want: int) {
    match h
    case None => forall b {:trigger m[b].used} :: b in m && b < HEAP_MAX && !m[b].used ==> Payload(m, b, POOL) < want
    case Some(a) =>
      && a in m && a < HEAP_MAX && !m[a].used && Payload(m, a, POOL) >= want
      && forall b {:trigger m[b].used} :: b in m && b < a && !m[b].used ==> Payload(m, b, POOL) < want
  }

  /** What finsh_heap_allocate's search compares block lengths with, in 32-bit arithmetic. */
  function Room(size: nat): nat {
    (size + HEADER) % WORD_LIMIT
  }

  /** finsh_heap_allocate's search skips a block in 32-bit arithmetic. */
  predicate TooShort(length: int, size: nat) {
    length <= Room(size)
  }

  /** The test is the intended one except for the eight requests just below those that align
      to 0. */
  lemma FitTestIsExact(request: nat)
    requires request < WORD_LIMIT
    ensures (forall length :: 0 <= length < HEAP_MAX ==>
              (TooShort(length, Align(request)) <==> length <= Align(request) + HEADER))
       <==> !(WORD_LIMIT - 12 < request <= WORD_LIMIT - 4)
  {
    AlignCovers(request);
    if Align(request) + HEADER >= WORD_LIMIT {
      assert (Align(request) + HEADER) % WORD_LIMIT == Align(request) + HEADER - WORD_LIMIT;
      assert !TooShort(HEAP_MAX - 1, Align(request));
    }
  }

  /** On a heap with nothing allocated a request of 2^32 - 4 passes the test. */
  lemma FitTestWraps()
    ensures var m := map[0 := Header(false, HEAP_MAX, 0), HEAP_MAX := Header(true, HEAP_MAX, HEAP_MAX)];
            var size := Align(WORD_LIMIT - 4);
            && size == WORD_LIMIT - 4 && Payload(m, 0, POOL) == HEAP_MAX - HEADER
            && !TooShort(HEAP_MAX - HEADER, size) && LowestFit(m, Some(0), Room(size) + 1)
  {
    assert Room(WORD_LIMIT - 4) == 4;
  }

  lemma RoomWraps(request: nat)
    requires request < WORD_LIMIT
    ensures Align(request) + HEADER >= WORD_LIMIT <==> WORD_LIMIT - 12 < request <= WORD_LIMIT - 4
    ensures Align(request) + HEADER < WORD_LIMIT ==> Room(Align(request)) == Align(request) + HEADER
  {
    AlignCovers(request);
  }

  predicate Touches(length: LinkMap, s: seq<int>, i: int) {
    0 <= i && i + 1 < |s| && s[i] in length && s[i] + length[s[i]] + HEADER == s[i + 1]
  }

  lemma LengthAt(length: LinkMap, m: Headers, a: nat)
    requires Lengths(length, m) && a in m && a < HEAP_MAX
    ensures a in length && length[a] == m[a].next - a - HEADER
  {
  }

  lemma LengthsKept(l: LinkMap, l': LinkMap, m: Headers, a: nat)
    requires Lengths(l, m) && a !in m
    requires forall z {:trigger l'[z]} {:trigger l[z]} :: z in l && z != a ==> z in l' && l'[z] == l[z]
    ensures Lengths(l', m)
  {
    forall b: nat {:trigger l'[b]} {:trigger b in l'} | b in m && b < HEAP_MAX
      ensures b in l' && l'[b] == m[b].next - b - HEADER
    {
      LengthAt(l, m, b);
    }
  }

  /** A free block that is next in the pool is next in the list. */
  lemma NextInList(m: Headers, s: seq<int>, i: nat, p: nat)
    requires Ordered(m) && Members(s, m, false) && Ascending(s) && i < |s| && s[i] == p && p in m
    requires m[p].next in m && p < m[p].next < HEAP_MAX && !m[m[p].next].used
    ensures i + 1 < |s| && s[i + 1] == m[p].next
  {
    var n := m[p].next;
    assert n as int in s;
    var j :| 0 <= j < |s| && s[j] == n;
    assert i < j;
    assert s[i + 1] in s;
    assert n <= s[i + 1];
  }

  lemma MemberAt(m: Headers, s: seq<int>, i: nat, used: bool)
    requires Members(s, m, used) && i < |s|
    ensures 0 <= s[i] < HEAP_MAX && s[i] in m && m[s[i] as nat].used == used
  {
    assert s[i] in s;
  }

  /** In the free list a block's neighbours are its free neighbours in the pool. */
  lemma RightInList(m: Headers, a: nat, s: seq<int>, i: nat, length: LinkMap)
    requires Shaped(m, POOL) && a in m && a < HEAP_MAX && !m[a].used
    requires Members(s, m, false) && Ascending(s) && i < |s| && s[i] == a && Lengths(length, m)
    ensures Touches(length, s, i) <==> FreeAfter(m, a, POOL)
    ensures Touches(length, s, i) ==> s[i + 1] == m[a].next
  {
    NextIsBlock(m, a, POOL);
    OrderedOf(m, POOL);
    LengthAt(length, m, a);
    hide Shaped, Tiled, Ordered, Members, Ascending, Lengths;
    if FreeAfter(m, a, POOL) {
      NextInList(m, s, i, a);
    } else if i + 1 < |s| {
      MemberAt(m, s, i + 1, false);
    }
  }

  lemma LeftInList(m: Headers, a: nat, s: seq<int>, i: nat, length: LinkMap)
    requires Shaped(m, POOL) && a in m && a < HEAP_MAX && !m[a].used
    requires Members(s, m, false) && Ascending(s) && i < |s| && s[i] == a && Lengths(length, m)
    ensures Touches(length, s, i - 1) <==> FreeBefore(m, a)
    ensures Touches(length, s, i - 1) ==> s[i - 1] == m[a].prev
  {
    hide Forward, Ordered, Linked, Members, Ascending, Lengths;
    if a == 0 {
      FirstHasNoPrev(m, POOL);
      if i > 0 {
        Climbs(s, i);
        MemberAt(m, s, i - 1, false);
      }
    } else {
      PrevIsPredecessor(m, 0, a, POOL);
      var p := m[a].prev;
      if FreeBefore(m, a) {
        var j := Index(m, s, p, false);
        NextInList(m, s, j, p);
        SameIndex(s, i, j + 1);
        LengthAt(length, m, p);
      } else if i > 0 {
        MemberAt(m, s, i - 1, false);
        LengthAt(length, m, s[i - 1]);
        NextIsBlock(m, s[i - 1], POOL);
        LinkedAt(m, s[i - 1], POOL);
      }
    }
  }

  /** Merging two neighbours in the list merges them in the pool. */
  lemma MergedLists(m: Headers, p: nat, s: seq<int>, j: nat, length: LinkMap)
    requires Shaped(m, POOL) && p in m && p < HEAP_MAX && !m[p].used && m[p].next in m && m[p].next < HEAP_MAX
    requires !m[m[p].next].used && m[m[p].next].next in m && m[p].next < m[m[p].next].next
    requires Members(s, m, false) && Ascending(s) && j + 1 < |s| && s[j] == p && s[j + 1] == m[p].next
             && Lengths(length, m)
    ensures p in length && m[p].next in length
    ensures var t, n := Without(s, j + 1), m[p].next;
            && Members(t, Merge(m, p), false) && Ascending(t)
            && Lengths(length[p := length[p] + length[n] + HEADER], Merge(m, p))
  {
    hide Forward, Ordered, Linked;
    NextIsBlock(m, p, POOL);
    WithoutIsSorted(s, j + 1);
    LengthAt(length, m, p);
    LengthAt(length, m, m[p].next);
  }

  /** The lists after allocation: the rest of the block takes its place in the free list. */
  lemma CarvedIdle(m: Headers, a: nat, size: nat, s: seq<int>, k: nat)
    requires Ordered(m) && a in m && a < HEAP_MAX && !m[a].used && Payload(m, a, POOL) >= size + HEADER
    requires m[a].next in m && m[a].next <= HEAP_MAX && a + HEADER + size !in m
    requires Members(s, m, false) && Ascending(s) && k < |s| && s[k] == a
    ensures var at := a + HEADER + size;
            && (at as int) !in s
            && var t := Insert(s, k + 1, at);
            && Ascending(t) && k < |t| && t[k] == a && Ascending(Without(t, k))
            && Members(Without(t, k), Carved(m, a, size, POOL), false)
  {
    var at := a + HEADER + size;
    assert (at as int) !in s;
    CarvedPlace(m, a, at, s, k);
    hide Ordered;
    var t := Insert(s, k + 1, at);
    InsertMembers(s, k + 1, at);
    WithoutIsSorted(t, k);
    hide Ascending, Insert, Without;
  }

  lemma CarvedBusy(m: Headers, a: nat, size: nat, u: seq<int>)
    requires a in m && a < HEAP_MAX && !m[a].used && Payload(m, a, POOL) >= size + HEADER
    requires m[a].next in m && m[a].next <= HEAP_MAX && a + HEADER + size !in m
    requires Members(u, m, true) && Ascending(u)
    ensures a !in u && Members(InsertSorted(u, a), Carved(m, a, size, POOL), true) && Ascending(InsertSorted(u, a))
  {
    assert a !in u;
    InsertSortedIsSorted(u, a);
    hide Ascending, InsertSorted;
  }

  lemma CarvedLengths(m: Headers, a: nat, size: nat, length: LinkMap)
    requires a in m && a < HEAP_MAX && Payload(m, a, POOL) >= size + HEADER
    requires m[a].next in m && Lengths(length, m) && a in length && a + HEADER + size !in m
    ensures Lengths(length[a + HEADER + size := length[a] - HEADER - size][a := size], Carved(m, a, size, POOL))
  {
  }

  lemma CarvedPlace(m: Headers, a: nat, at: nat, s: seq<int>, k: nat)
    requires Ordered(m) && a in m && a < at < m[a].next && Members(s, m, false) && Ascending(s)
    requires k < |s| && s[k] == a && (at as int) !in s
    ensures Ascending(Insert(s, k + 1, at)) && Insert(s, k + 1, at)[k] == a
  {
    forall j | k < j < |s| ensures at < s[j] {
      MemberAt(m, s, j, false);
      assert m[a].next <= s[j];
    }
  }

  /** Joining `a` to its left neighbour; what is left in `a`'s own header does not matter. */
  lemma JoinedLeft(f: Headers, a: nat, t: seq<int>, i: nat, l: LinkMap, n: LinkMap, list: int, l': LinkMap, n': LinkMap)
    requires Shaped(f, POOL) && a in f && a < HEAP_MAX && !f[a].used && FreeBefore(f, a) && f[a].next in f
    requires f[f[a].prev].next == a && f[a].prev < a && PlugBackward(f, a) == Merge(f, f[a].prev)
    requires ListFrom(n, list, t) && Ascending(t) && Members(t, f, false) && Lengths(l, f) && i < |t| && t[i] == a
    requires i > 0 && t[i - 1] == f[a].prev && a in l && a in n && f[a].prev in l
    requires forall z {:trigger l'[z]} {:trigger l[z]} :: z in l && z != a ==>
               z in l' && l'[z] == if z == f[a].prev then l[z] + l[a] + HEADER else l[z]
    requires forall z {:trigger n'[z]} {:trigger n[z]} :: z in n && z != a ==>
               z in n' && n'[z] == if z == f[a].prev then n[a] else n[z]
    ensures ListFrom(n', list, Without(t, i)) && Ascending(Without(t, i))
    ensures Members(Without(t, i), PlugBackward(f, a), false) && Lengths(l', PlugBackward(f, a))
  {
    hide Forward, Ordered, Linked, Ascending, Members;
    var p := f[a].prev;
    NextIsBlock(f, p, POOL);
    NextIsBlock(f, a, POOL);
    MergedLists(f, p, t, i - 1, l);
    var l1, n1 := l[p := l[p] + l[a] + HEADER], n[p := n[a]];
    NoRepeats(t);
    ListRemove(n, list, t, i);
    ListAt(n, list, t, i - 1);
    WithoutIsSorted(t, i);
    assert a !in Without(t, i);
    ListKept(n1, n', list, Without(t, i));
    assert forall z {:trigger l'[z]} {:trigger l1[z]} :: z in l1 && z != a ==> z in l' && l'[z] == l1[z];
    LengthsKept(l1, l', Merge(f, p), a);
  }

  lemma Index(m: Headers, s: seq<int>, a: nat, used: bool) returns (k: nat)
    requires Members(s, m, used) && a in m && a < HEAP_MAX && m[a].used == used
    ensures k < |s| && s[k] == a
  {
    assert a as int in s;
    k :| 0 <= k < |s| && s[k] == a;
  }

  /** While a used block moves from one list to the other, the other reaches beyond it. */
  lemma ReleasedPlace(m: Headers, a: nat, s: seq<int>)
    requires Tiled(m, POOL) && TopFree(m, POOL) && a in m && a < HEAP_MAX && m[a].used
    requires Members(s, m, false) && Ascending(s)
    ensures (a as int) !in s && s != [] && a < s[|s| - 1]
    ensures var t, m1 := InsertSorted(s, a), SetUsed(m, a, false);
            Members(t, m1, false) && Ascending(t) && Pos(s, a) < |t| && t[Pos(s, a)] == a
  {
    var f := FreeAbove(m, a, POOL);
    hide Tiled, TopFree;
    var j := Index(m, s, f, false);
    InsertSortedIsSorted(s, a);
    hide InsertSorted;
  }

  lemma ReleasedLists(m: Headers, a: nat, s: seq<int>, u: seq<int>, k: nat)
    requires Pool(m, POOL) && a in m && a < HEAP_MAX && m[a].used
    requires Members(s, m, false) && Ascending(s) && Members(u, m, true) && Ascending(u) && k < |u| && u[k] == a
    ensures var v := Without(u, k);
            && Ascending(v) && Members(v, Released(m, a, POOL), true)
            && forall z {:trigger z in v} :: z in v ==> z in u && z != a && z !in s && z !in InsertSorted(s, a)
    ensures forall z {:trigger z in s} :: z in s ==> z !in u
  {
    hide Pool, Released;
    InsertSortedIsSorted(s, a);
    WithoutIsSorted(u, k);
    ReleasedBlocks(m, a, POOL);
    hide InsertSorted, Without, Ascending;
  }

  lemma ReleasedLengths(length: LinkMap, m: Headers, a: nat)
    requires Lengths(length, m) && a in m
    ensures Lengths(length, SetUsed(m, a, false))
  {
  }

  /** A search of the free list in order finds the lowest block that fits. */
  lemma Searched(m: Headers, s: seq<int>, length: LinkMap, k: nat, want: int)
    requires Members(s, m, false) && Ascending(s) && Lengths(length, m) && k <= |s|
    requires forall i {:trigger s[i]} :: 0 <= i < k ==> s[i] in length && length[s[i]] < want
    ensures k == |s| ==> LowestFit(m, None, want)
    ensures k < |s| && s[k] in length && length[s[k]] >= want ==> s[k] >= 0 && LowestFit(m, Some(s[k]), want)
  {
    if k < |s| { MemberAt(m, s, k, false); }
    forall b: nat {:trigger m[b].used} | b in m && b < HEAP_MAX && !m[b].used && (k < |s| ==> b < s[k])
      ensures Payload(m, b, POOL) < want
    {
      var i := Index(m, s, b, false);
      assert i < k;
    }
  }

  /** Before and after the cut, the two lists have no block in common. */
  lemma ListsApart(m: Headers, s: seq<int>, u: seq<int>, at: nat, k: nat)
    requires Members(s, m, false) && Members(u, m, true) && at !in m && k < |s| && Ascending(Insert(s, k + 1, at))
    requires Insert(s, k + 1, at)[k] == s[k]
    ensures forall z {:trigger z in u} :: z in u ==> z !in s && z != at && z !in Insert(s, k + 1, at)
    ensures forall z {:trigger z in Without(Insert(s, k + 1, at), k)} :: z in Without(Insert(s, k + 1, at), k) ==>
              z != s[k] && z !in u
  {
    InsertMembers(s, k + 1, at);
    WithoutIsSorted(Insert(s, k + 1, at), k);
    assert forall z {:trigger z in u} :: z in u ==> z !in s;
  }

  /** What finsh_block_merge must leave behind in each of its four cases. */
  lemma JoinedLists(m: Headers, a: nat, s: seq<int>, i: nat, length: LinkMap, next: LinkMap, list: int)
      returns (t: seq<int>)
    requires Shaped(m, POOL) && CoalescedBut(m, POOL, a) && a in m && a < HEAP_MAX && !m[a].used
    requires ListFrom(next, list, s) && Members(s, m, false) && Ascending(s) && i < |s| && s[i] == a
             && Lengths(length, m)
    ensures a in length && a in next
    ensures var left, right := Touches(length, s, i - 1), Touches(length, s, i);
            && (right ==> s[i + 1] in length && s[i + 1] in next)
            && (left ==> s[i - 1] in next)
            && var length' := if left && right then
                                length[s[i - 1] := length[s[i - 1]] + length[a] + length[s[i + 1]] + 2 * HEADER]
                              else if left then length[s[i - 1] := length[s[i - 1]] + length[a] + HEADER]
                              else if right then length[a := length[a] + length[s[i + 1]] + HEADER]
                              else length;
            && var next' := if left && right then next[s[i - 1] := next[s[i + 1]]]
                            else if left then next[s[i - 1] := next[a]]
                            else if right then next[a := next[s[i + 1]]]
                            else next;
            && ListFrom(next', list, t) && Ascending(t) && Members(t, Plugged(m, a, POOL), false)
            && Lengths(length', Plugged(m, a, POOL))
  {
    hide Forward, Ordered, Linked, Coalesced, CoalescedBut, Members, Lengths, Ascending;
    t := s;
    var l, n, f := length, next, PlugForward(m, a, POOL);
    LengthAt(length, m, a);
    ListAt(next, list, s, i);
    RightInList(m, a, s, i, length);
    LeftInList(m, a, s, i, length);
    PlugForwardKeepsShape(m, a, POOL);
    if Touches(length, s, i) {
      NextIsBlock(m, a, POOL);
      MergeKeepsShape(m, a, POOL);
      MergedLists(m, a, s, i, length);
      NoRepeats(s);
      ListRemove(next, list, s, i + 1);
      t, l, n := Without(s, i + 1), length[a := length[a] + length[s[i + 1]] + HEADER], next[a := next[s[i + 1]]];
    }
    PlugBackwardKeepsShape(f, a, POOL);
    if Touches(length, s, i - 1) {
      ListAt(next, list, s, i - 1);
      Climbs(s, i);
      var right := Touches(length, s, i);
      JoinedLeft(f, a, t, i, l, n, list,
        length[s[i - 1] := length[s[i - 1]] + length[a] + (if right then length[s[i + 1]] + HEADER else 0) + HEADER],
        next[s[i - 1] := if right then next[s[i + 1]] else next[a]]);
      t := Without(t, i);
    }
  }

  // ----- the heap in place -----

  /** What releasing the `k`th used block does. */
  ghost predicate Freed(m: Headers, u: seq<int>, k: int, a: int, m': Headers, u': seq<int>) {
    0 <= k < |u| && 0 <= a && a in m && m' == Released(m, a, POOL) && u' == Without(u, k)
  }

  class Heap {
    /** global_variable, as the collector sees it. */
    const vars: array<Variable>
    const data: array<byte>
    /** The headers in the pool: lengths and next pointers. */
    var length: LinkMap
    var next: LinkMap
    var freeList: int
    var allocateList: int
    /** The two lists as sequences, and the pool they tile. */
    ghost var idle: seq<int>
    ghost var busy: seq<int>
    ghost var blocks: Headers

    ghost predicate Valid()
      reads this
    {
      && data.Length == HEAP_MAX && vars.Length == VARIABLE_MAX
      && Pool(blocks, POOL) && Lengths(length, blocks)
      && ListFrom(next, freeList, idle) && Ascending(idle) && Members(idle, blocks, false)
      && ListFrom(next, allocateList, busy) && Ascending(busy) && Members(busy, blocks, true)
    }

    /** finsh_heap_init. */
    constructor (vars: array<Variable>)
      requires vars.Length == VARIABLE_MAX
      ensures Valid() && this.vars == vars && fresh(data) && idle == [0] && busy == []
    {
      this.vars := vars;
      data := new byte[HEAP_MAX](_ => 0);
      length, next := map[0 := HEAP_MAX - HEADER], map[0 := NULL];
      freeList, allocateList := 0, NULL;
      idle, busy := [0], [];
      blocks := map[0 := Header(false, HEAP_MAX, 0), HEAP_MAX := Header(true, HEAP_MAX, HEAP_MAX)];
    }

    /** finsh_block_insert. Appended at the end of a list, the block keeps whatever `next` it
        had; so the result is the list with the block in its place exactly when it is not the
        highest or its `next` was clear. */
    method BlockInsert(list: int, header: int, ghost s: seq<int>) returns (r: int)
      requires ListFrom(next, list, s) && Ascending(s) && header !in s && header in next && header >= 0
      modifies `next
      ensures ListFrom(next, r, InsertSorted(s, header)) <==>
                old(next)[header] == NULL || (s != [] && header < s[|s| - 1])
      ensures forall z {:trigger z in next} {:trigger z in old(next)} :: z in old(next) && z !in s && z != header ==>
                z in next && next[z] == old(next)[z]
    {
      ghost var p := Pos(s, header);
      PosSplits(s, header);
      NoRepeats(s);
      ListInsert(next, list, s, p, header);
      hide NoDup, Ascending;
      if list == NULL {
        return header;
      }
      var node := list;
      if node > header {
        next := next[header := node];
        return header;
      }
      r := list;
      ghost var i := 0;
      ListAt(next, list, s, 0);
      while next[node] <= header && next[node] != NULL
        invariant next == old(next) && i < |s| && node == s[i] && i < p && node in next
                  && next[node] == Right(s, i + 1, NULL)
        decreases |s| - i
      {
        node := next[node];
        i := i + 1;
        ListAt(next, list, s, i);
      }
      if i + 1 < |s| { ListAt(next, list, s, i + 1); }
      assert i + 1 == p;
      if next[node] != NULL { next := next[header := next[node]]; }
      next := next[node := header];
      if p == |s| {
        if old(next)[header] == NULL {
          assert next == old(next)[header := NULL][node := header];
        } else if ListFrom(next, list, Insert(s, p, header)) {
          ListAt(next, list, Insert(s, p, header), p);
        }
      }
    }

    /** finsh_block_remove. The head's `next` is cleared; any other block keeps its own. */
    method BlockRemove(list: int, header: int, ghost s: seq<int>, ghost i: nat) returns (r: int)
      requires ListFrom(next, list, s) && Ascending(s) && i < |s| && s[i] == header
      modifies `next
      ensures ListFrom(next, r, Without(s, i))
      ensures header in next && next[header] == if i == 0 then NULL else Right(s, i + 1, NULL)
      ensures forall z {:trigger z in next} {:trigger z in old(next)} :: z in old(next) && z !in s ==>
                z in next && next[z] == old(next)[z]
    {
      NoRepeats(s);
      ListRemove(next, list, s, i);
      ListAt(next, list, s, i);
      var node := list;
      if node == header {
        r := next[header];
        next := next[header := NULL];
        ListKept(old(next), next, r, Without(s, i));
        return;
      }
      r := list;
      ghost var k := 0;
      while node != NULL
        invariant next == old(next) && k < i && node == s[k] && node != NULL
        decreases i - k
      {
        ListAt(next, list, s, k);
        if next[node] == header {
          next := next[node := next[header]];
          break;
        }
        node := next[node];
        k := k + 1;
        ListAt(next, list, s, k);
      }
    }

    /** finsh_block_split. */
    method BlockSplit(header: int, size: nat, ghost list: int, ghost s: seq<int>, ghost i: nat)
      requires ListFrom(next, list, s) && Ascending(s) && i < |s| && s[i] == header && header >= 0
      requires header in length && header + HEADER + size !in s
      modifies `next, `length
      ensures var at := header + HEADER + size;
              && ListFrom(next, list, Insert(s, i + 1, at))
              && length == old(length)[at := old(length)[header] - HEADER - size][header := size]
              && forall z {:trigger z in next} {:trigger z in old(next)} :: z in old(next) && z !in s && z != at ==>
                   z in next && next[z] == old(next)[z]
    {
      ListAt(next, list, s, i);
      var at := header + HEADER + size;
      NoRepeats(s);
      ListInsert(next, list, s, i + 1, at);
      length := length[at := length[header] - HEADER - size];
      length := length[header := size];
      next := next[at := next[header]];
      next := next[header := at];
    }

    /** finsh_block_merge: join the newly freed block to its free neighbours. */
    method BlockMerge(list: int, header: int, ghost s: seq<int>, ghost i: nat, ghost m: Headers)
        returns (ghost t: seq<int>)
      requires ListFrom(next, list, s) && Ascending(s) && i < |s| && s[i] == header && 0 <= header < HEAP_MAX
      requires header in m && !m[header].used && Shaped(m, POOL) && CoalescedBut(m, POOL, header)
      requires Members(s, m, false) && Lengths(length, m)
      modifies `next, `length
      ensures ListFrom(next, list, t) && Ascending(t) && Members(t, Plugged(m, header, POOL), false)
      ensures Lengths(length, Plugged(m, header, POOL))
      ensures forall z {:trigger z in next} {:trigger z in old(next)} :: z in old(next) && z !in s ==>
                z in next && next[z] == old(next)[z]
    {
      hide Forward, Ordered, Linked, Coalesced, CoalescedBut, Shaped, Members, Lengths;
      ListAt(next, list, s, i);
      ghost var h: nat := header;
      RightInList(m, h, s, i, length);
      LeftInList(m, h, s, i, length);
      t := JoinedLists(m, h, s, i, length, next, list);
      var nextNode := next[header];
      var prevNode := FindPrevious(list, header, s, i);
      if i > 0 { MemberAt(m, s, i - 1, false); LengthAt(length, m, s[i - 1]); }
      if i + 1 < |s| { MemberAt(m, s, i + 1, false); LengthAt(length, m, s[i + 1]); }
      if prevNode != NULL && prevNode + length[prevNode] + HEADER == header {
        if nextNode != NULL && header + length[header] + HEADER == nextNode {
          length := length[prevNode := length[prevNode] + length[header] + length[nextNode] + 2 * HEADER];
          next := next[prevNode := next[nextNode]];
        } else {
          length := length[prevNode := length[prevNode] + length[header] + HEADER];
          next := next[prevNode := next[header]];
        }
      } else if nextNode != NULL && header + length[header] + HEADER == nextNode {
        length := length[header := length[header] + length[nextNode] + HEADER];
        next := next[header := next[nextNode]];
      }
    }

    /** The block before `header` in the list, if it is not the first. */
    method FindPrevious(list: int, header: int, ghost s: seq<int>, ghost i: nat) returns (p: int)
      requires ListFrom(next, list, s) && Ascending(s) && i < |s| && s[i] == header
      ensures p == Left(NULL, s, i)
    {
      ListAt(next, list, s, 0);
      if list == header { return NULL; }
      p := list;
      ghost var k := 0;
      while p != NULL
        invariant k < i && p == s[k] && p != NULL
        decreases i - k
      {
        ListAt(next, list, s, k);
        if next[p] == header { break; }
        p := next[p];
        k := k + 1;
        ListAt(next, list, s, k);
      }
    }

    /** finsh_heap_free. The released block is never the highest, so the `next` that
        finsh_block_remove leaves in it is always overwritten. */
    method Free(ptr: nat, ghost k: nat)
      requires ptr >= HEADER && ptr - HEADER < HEAP_MAX && ptr - HEADER in blocks && blocks[ptr - HEADER].used
      requires k < |busy| && busy[k] == ptr - HEADER
      requires Valid()
      modifies `length, `next, `freeList, `allocateList, `idle, `busy, `blocks
      ensures Freed(old(blocks), old(busy), k, ptr - HEADER, blocks, busy)
      ensures Valid()
    {
      hide Forward, Ordered, Linked, Coalesced, CoalescedBut, TopFree, Lengths, ListFrom, Members, InsertSorted;
      hide Plugged, Insert, Without, Ascending;
      var header := ptr - HEADER;
      ghost var m, s, u := blocks, idle, busy;
      ReleasedKeepsShape(m, header, POOL);
      ReleasedKeepsPool(m, header, POOL);
      ReleasedPlace(m, header, s);
      ReleasedLists(m, header, s, u, k);
      ReleasedLengths(length, m, header);
      allocateList := BlockRemove(allocateList, header, u, k);
      ListKept(old(next), next, freeList, s);
      label Removed:
      freeList := BlockInsert(freeList, header, s);
      ListKept(old@Removed(next), next, allocateList, Without(u, k));
      label Inserted:
      ghost var t := BlockMerge(freeList, header, InsertSorted(s, header), Pos(s, header), SetUsed(m, header, false));
      ListKept(old@Inserted(next), next, allocateList, Without(u, k));
      idle, busy, blocks := t, Without(u, k), Released(m, header, POOL);
    }

    /** finsh_heap_gc. */
    method Gc()
      requires Valid()
      modifies `length, `next, `freeList, `allocateList, `idle, `busy, `blocks
      ensures blocks == Swept(old(blocks), old(busy), vars[..], POOL)
      ensures forall b: nat {:trigger blocks[b]} :: b in blocks && b < HEAP_MAX && blocks[b].used ==>
                b in old(blocks) && old(blocks)[b].used && Pointed(vars[..], b)
      ensures forall b: nat {:trigger old(blocks)[b]} ::
                b in old(blocks) && b < HEAP_MAX && old(blocks)[b].used && Pointed(vars[..], b) ==>
                b in blocks && blocks[b].used && blocks[b].next == old(blocks)[b].next
      ensures Valid()
    {
      hide Pool, Released, Lengths, ListFrom, Pointed, Ascending;
      ghost var m, u := blocks, busy;
      SweptKeepsPointed(m, u, vars[..], POOL);
      var header := allocateList;
      ghost var i := 0;
      assert busy[0..] == busy;
      ListStart(next, allocateList, busy);
      while header != NULL
        invariant Valid() && i <= |busy| && header == Right(busy, i, NULL)
        invariant Swept(blocks, busy[i..], vars[..], POOL) == Swept(m, u, vars[..], POOL)
        decreases |busy| - i
      {
        ListAt(next, allocateList, busy, i);
        MemberAt(blocks, busy, i, true);
        var kept := IsPointed(header);
        var temp := header;
        header := next[header];
        assert busy[i..][1..] == busy[i + 1..];
        if kept {
          i := i + 1;
        } else {
          ghost var before := busy;
          Free(temp + HEADER, i);
          assert busy[i..] == before[i + 1..];
        }
      }
      if i < |busy| { MemberAt(blocks, busy, i, true); }
    }

    /** The collector's inner loop: is there a typed variable that points to the block? */
    method IsPointed(header: nat) returns (found: bool)
      requires vars.Length == VARIABLE_MAX
      ensures found <==> Pointed(vars[..], header)
    {
      var i := 0;
      while i < VARIABLE_MAX
        invariant 0 <= i <= VARIABLE_MAX
        invariant forall k :: 0 <= k < i ==> !(vars[k].typed && vars[k].ptr == header + HEADER)
      {
        if vars[i].typed {
          if vars[i].ptr == header + HEADER {
            assert vars[..][i].typed;
            return true;
          }
        }
        i := i + 1;
      }
      found := false;
    }

    /** finsh_heap_allocate: the lowest block with more room than the request and a header; if
        there is none, the lowest with just that room after collecting garbage. `Wrapped` is
        where the source leaves the heap: the room wrapped, and a block passed the test. */
    method Allocate(request: nat) returns (r: Outcome)
      requires request < WORD_LIMIT
      requires Valid()
      modifies `length, `next, `freeList, `allocateList, `idle, `busy, `blocks, data
      ensures var size := Align(request);
              var room, m, c := Room(size), old(blocks), Swept(old(blocks), old(busy), vars[..], POOL);
              match r
              case Wrapped =>
                && WORD_LIMIT - 12 < request <= WORD_LIMIT - 4 && data[..] == old(data[..])
                && (if LowestFit(m, None, room + 1) then !LowestFit(c, None, room) && blocks == c else blocks == m)
              case Done(None) =>
                && LowestFit(m, None, room + 1) && LowestFit(c, None, room)
                && blocks == c && data[..] == old(data[..])
              case Done(Some(q)) =>
                && !(WORD_LIMIT - 12 < request <= WORD_LIMIT - 4) && room == size + HEADER
                && q >= HEADER && q + size <= HEAP_MAX && data.Length == HEAP_MAX
                && (q - HEADER) in blocks && blocks[q - HEADER].used && blocks[q - HEADER].next == q + size
                && var a: nat := q - HEADER;
                && ((LowestFit(m, Some(a), size + HEADER + 1) && a in m && m[a].next in m
                     && blocks == Carved(m, a, size, POOL))
                    || (LowestFit(m, None, size + HEADER + 1) && LowestFit(c, Some(a), size + HEADER)
                        && a in c && c[a].next in c && blocks == Carved(c, a, size, POOL)))
                && (forall i {:trigger data[i]} :: q <= i < q + size ==> data[i] == 0)
                && (forall i {:trigger data[i]} :: 0 <= i < HEAP_MAX && !(a <= i < q + size + HEADER) ==>
                      data[i] == old(data[..])[i])
      ensures Valid()
    {
      hide Pool, Lengths, ListFrom, Members, Ascending, Swept, Carved;
      AlignCovers(request);
      var size := Align(request);
      RoomWraps(request);
      hide Align, Room, LowestFit;
      var room := Room(size);
      var header, k := FindFirst(room + 1);
      if header != NULL {
      } else {
        Gc();
        header, k := FindFirst(room);
        if header == NULL { return Done(None); }
      }
      if size + HEADER >= WORD_LIMIT { return Wrapped; }
      Give(header, size, k);
      r := Done(Some(header + HEADER));
    }

    /** The first block of the free list with at least `want` bytes. */
    method FindFirst(want: int) returns (header: int, ghost k: nat)
      requires Valid()
      ensures header == NULL ==> LowestFit(blocks, None, want)
      ensures header != NULL ==> header >= 0 && LowestFit(blocks, Some(header), want) && k < |idle| && idle[k] == header
    {
      hide Pool, ListFrom;
      header, k := freeList, 0;
      ListStart(next, freeList, idle);
      if 0 < |idle| { MemberAt(blocks, idle, 0, false); LengthAt(length, blocks, idle[0]); }
      hide Members, Lengths, Ascending;
      while header != NULL && length[header] < want
        invariant k <= |idle| && header == Right(idle, k, NULL)
        invariant header != NULL ==> header in length
        invariant forall i {:trigger idle[i]} :: 0 <= i < k ==> idle[i] in length && length[idle[i]] < want
        decreases |idle| - k
      {
        ListAt(next, freeList, idle, k);
        header := next[header];
        k := k + 1;
        if k < |idle| { MemberAt(blocks, idle, k, false); LengthAt(length, blocks, idle[k]); }
      }
      if k < |idle| { MemberAt(blocks, idle, k, false); }
      Searched(blocks, idle, length, k, want);
    }

    /** The rest of finsh_heap_allocate: cut the block, move it between the lists, clear it. */
    method Give(header: nat, size: nat, ghost k: nat)
      requires header in blocks && header < HEAP_MAX && !blocks[header].used && k < |idle| && idle[k] == header
      requires size % 4 == 0 && Payload(blocks, header, POOL) >= size + HEADER
      requires Valid()
      modifies `length, `next, `freeList, `allocateList, `idle, `busy, `blocks, data
      ensures old(blocks)[header].next in old(blocks) && blocks == Carved(old(blocks), header, size, POOL)
      ensures data.Length == HEAP_MAX && header + HEADER + size + HEADER <= HEAP_MAX
      ensures header in blocks && blocks[header].used && blocks[header].next == header + HEADER + size
      ensures forall i {:trigger data[i]} :: header + HEADER <= i < header + HEADER + size ==> data[i] == 0
      ensures forall i {:trigger data[i]} :: 0 <= i < HEAP_MAX && !(header <= i < header + size + 2 * HEADER) ==>
                data[i] == old(data[..])[i]
      ensures Valid()
    {
      hide Pool, Lengths, ListFrom, Members, Ascending, Carved;
      NextBlock(blocks, header);
      CarvedBlocks(blocks, header, size, POOL);
      MoveOver(header, size, k);
      Overwrite(data, header, HEADER + size + HEADER);
      Clear(header + HEADER, size);
    }

    /** Split the block and move its front from the free to the allocated list. */
    method MoveOver(header: nat, size: nat, ghost k: nat)
      requires header in blocks && header < HEAP_MAX && !blocks[header].used && k < |idle| && idle[k] == header
      requires size % 4 == 0 && Payload(blocks, header, POOL) >= size + HEADER
      requires Valid()
      modifies `length, `next, `freeList, `allocateList, `idle, `busy, `blocks
      ensures old(blocks)[header].next in old(blocks) && blocks == Carved(old(blocks), header, size, POOL)
      ensures data.Length == HEAP_MAX && header + HEADER + size + HEADER <= HEAP_MAX
      ensures Valid()
    {
      hide Forward, Linked, Coalesced, TopFree, Lengths, ListFrom, Members, InsertSorted, Insert, Without;
      hide Ascending, Carved;
      ghost var m, s, u, at := blocks, idle, busy, header + HEADER + size;
      NextIsBlock(m, header, POOL);
      CarvedKeepsPool(m, header, size, POOL);
      CarvedIdle(m, header, size, s, k);
      CarvedBusy(m, header, size, u);
      LengthAt(length, m, header);
      CarvedLengths(m, header, size, length);
      hide Ordered;
      ListsApart(m, s, u, at, k);
      BlockSplit(header, size, freeList, s, k);
      ListKept(old(next), next, allocateList, u);
      label Cut:
      freeList := BlockRemove(freeList, header, Insert(s, k + 1, at), k);
      ListKept(old@Cut(next), next, allocateList, u);
      label Removed:
      next := next[header := NULL];
      ListKept(old@Removed(next), next, allocateList, u);
      ListKept(old@Removed(next), next, freeList, Without(Insert(s, k + 1, at), k));
      label Cleared:
      allocateList := BlockInsert(allocateList, header, u);
      ListKept(old@Cleared(next), next, freeList, Without(Insert(s, k + 1, at), k));
      idle, busy, blocks := Without(Insert(s, k + 1, at), k), InsertSorted(u, header), Carved(m, header, size, POOL);
    }

    /** memset of a payload to zero. */
    method Clear(at: nat, n: nat)
      requires at + n <= data.Length
      modifies data
      ensures forall i {:trigger data[i]} :: at <= i < at + n ==> data[i] == 0
      ensures forall i {:trigger data[i]} :: 0 <= i < data.Length && !(at <= i < at + n) ==> data[i] == old(data[..])[i]
    {
      ghost var d := data[..];
      for i := 0 to n
        invariant forall k {:trigger data[k]} :: at <= k < at + i ==> data[k] == 0
        invariant forall k {:trigger data[k]} :: 0 <= k < data.Length && !(at <= k < at + n) ==> data[k] == d[k]
      {
        data[at + i] := 0;
      }
    }
  }
}
