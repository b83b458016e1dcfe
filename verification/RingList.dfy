/** The kernel's circular doubly linked list, and the sequence it stands for. */
module RingList {

  type LinkMap = map<int, int>

  /** From `x` the links lead through `s` to `last`, and each step can be undone. */
  ghost predicate Chain(next: LinkMap, prev: LinkMap, x: int, s: seq<int>, last: int)
    decreases |s|
  {
    var y := if s == [] then last else s[0];
    && x in next && next[x] == y && y in prev && prev[y] == x
    && (s != [] ==> Chain(next, prev, y, s[1..], last))
  }

  ghost predicate NoDup(s: seq<int>) {
    s == [] || (s[0] !in s[1..] && NoDup(s[1..]))
  }

  /** A list with head node `head`: the links lead once around the elements and back. */
  ghost predicate Ring(next: LinkMap, prev: LinkMap, head: int, s: seq<int>) {
    Chain(next, prev, head, s, head) && NoDup(s) && head !in s
  }

  function Insert(s: seq<int>, i: nat, n: int): seq<int>
    requires i <= |s|
  {
    s[..i] + [n] + s[i..]
  }

  function Without(s: seq<int>, i: nat): seq<int>
    requires i < |s|
  {
    s[..i] + s[i + 1..]
  }

  /** The node before position `i`, and the node at it. */
  function Left(x: int, s: seq<int>, i: nat): int
    requires i <= |s|
  {
    if i == 0 then x else s[i - 1]
  }

  function Right(s: seq<int>, i: nat, last: int): int
    requires i <= |s|
  {
    if i == |s| then last else s[i]
  }

  lemma {:induction false} ChainKept(next: LinkMap, prev: LinkMap, next': LinkMap, prev': LinkMap, x: int,
      s: seq<int>, last: int)
    requires Chain(next, prev, x, s, last)
    requires forall z :: z in [x] + s && z in next ==> z in next' && next'[z] == next[z]
    requires forall z :: z in s + [last] && z in prev ==> z in prev' && prev'[z] == prev[z]
    ensures Chain(next', prev', x, s, last)
    decreases |s|
  {
    assert x in [x] + s && (if s == [] then last else s[0]) in s + [last];
    if s != [] {
      assert forall z :: z in [s[0]] + s[1..] ==> z in [x] + s;
      assert forall z :: z in s[1..] + [last] ==> z in s + [last];
      ChainKept(next, prev, next', prev', s[0], s[1..], last);
    }
  }

  lemma {:induction false} ChainNeighbours(next: LinkMap, prev: LinkMap, x: int, s: seq<int>, last: int, i: nat)
    requires Chain(next, prev, x, s, last) && i <= |s|
    ensures var l, r := Left(x, s, i), Right(s, i, last);
            l in next && next[l] == r && r in prev && prev[r] == l
    decreases |s|
  {
    if i > 0 { ChainNeighbours(next, prev, s[0], s[1..], last, i - 1); }
  }

  /** Linking `n` in between two neighbours inserts it into the sequence. */
  lemma {:induction false} ChainInsert(next: LinkMap, prev: LinkMap, x: int, s: seq<int>, last: int, i: nat, n: int)
    requires Chain(next, prev, x, s, last) && i <= |s| && NoDup(s) && x !in s && last !in s
    requires n != x && n != last && n !in s
    ensures var l, r := Left(x, s, i), Right(s, i, last);
            Chain(next[n := r][l := n], prev[n := l][r := n], x, Insert(s, i, n), last)
    decreases |s|
  {
    var l, r := Left(x, s, i), Right(s, i, last);
    var next', prev' := next[n := r][l := n], prev[n := l][r := n];
    var t := Insert(s, i, n);
    if i == 0 {
      assert t[1..] == s;
      if s != [] { ChainKept(next, prev, next', prev', s[0], s[1..], last); }
      assert Chain(next', prev', n, s, last);
    } else {
      assert t[1..] == Insert(s[1..], i - 1, n);
      ChainInsert(next, prev, s[0], s[1..], last, i - 1, n);
    }
  }

  /** Linking the neighbours of a node to each other takes it out of the sequence. */
  lemma {:induction false} ChainRemove(next: LinkMap, prev: LinkMap, x: int, s: seq<int>, last: int, i: nat)
    requires Chain(next, prev, x, s, last) && i < |s| && NoDup(s) && x !in s && last !in s
    ensures var l, r := Left(x, s, i), Right(s, i + 1, last);
            && s[i] in prev && prev[s[i]] == l && s[i] in next && next[s[i]] == r
            && Chain(next[l := r], prev[r := l], x, Without(s, i), last)
    decreases |s|
  {
    var l, r := Left(x, s, i), Right(s, i + 1, last);
    var next', prev' := next[l := r], prev[r := l];
    if i == 0 {
      assert Without(s, 0) == s[1..];
      ChainNeighbours(next, prev, x, s, last, 1);
      if |s| > 1 { ChainKept(next, prev, next', prev', s[1], s[1..][1..], last); }
    } else {
      assert Without(s, i)[1..] == Without(s[1..], i - 1);
      ChainRemove(next, prev, s[0], s[1..], last, i - 1);
    }
  }

  lemma InsertMembers(s: seq<int>, i: nat, n: int)
    requires i <= |s|
    ensures forall z {:trigger z in Insert(s, i, n)} :: z in Insert(s, i, n) <==> z in s || z == n
  {
    assert s == s[..i] + s[i..];
    assert Insert(s, i, n)[i] == n;
  }

  lemma {:induction false} InsertNoDup(s: seq<int>, i: nat, n: int)
    requires NoDup(s) && i <= |s| && n !in s
    ensures NoDup(Insert(s, i, n)) && forall z :: z in Insert(s, i, n) <==> z in s || z == n
    decreases |s|
  {
    if i == 0 {
      assert Insert(s, 0, n)[1..] == s;
    } else {
      InsertNoDup(s[1..], i - 1, n);
      assert Insert(s, i, n)[1..] == Insert(s[1..], i - 1, n);
    }
    assert s == s[..i] + s[i..];
  }

  lemma {:induction false} WithoutNoDup(s: seq<int>, i: nat)
    requires NoDup(s) && i < |s|
    ensures NoDup(Without(s, i)) && forall z :: z in Without(s, i) <==> z in s && z != s[i]
    decreases |s|
  {
    if i == 0 {
      assert Without(s, 0) == s[1..];
    } else {
      WithoutNoDup(s[1..], i - 1);
      assert Without(s, i)[1..] == Without(s[1..], i - 1);
      assert forall z :: z in s <==> z == s[0] || z in s[1..];
      assert forall z :: z in Without(s, i) <==> z == s[0] || z in Without(s, i)[1..];
    }
  }

  /** Links of nodes outside `nodes` are the same. */
  ghost predicate Elsewhere(next: LinkMap, prev: LinkMap, next': LinkMap, prev': LinkMap, nodes: seq<int>) {
    forall z {:trigger z in nodes} :: z !in nodes ==>
      && (z in next ==> z in next' && next'[z] == next[z])
      && (z in prev ==> z in prev' && prev'[z] == prev[z])
  }

  /** A ring none of whose nodes is touched stays as it is. */
  lemma RingElsewhere(next: LinkMap, prev: LinkMap, next': LinkMap, prev': LinkMap, nodes: seq<int>, h: int,
      s: seq<int>)
    requires Ring(next, prev, h, s) && Elsewhere(next, prev, next', prev', nodes)
    requires h !in nodes && forall z {:trigger z in s} :: z in s ==> z !in nodes
    ensures Ring(next', prev', h, s)
  {
    assert forall z {:trigger z in [h] + s} {:trigger z in s + [h]} :: z in [h] + s || z in s + [h] ==> z !in nodes;
    ChainKept(next, prev, next', prev', h, s, h);
  }

  lemma EmptyNoDup()
    ensures NoDup([])
  {
  }

  lemma TailMembers(s: seq<int>)
    requires NoDup(s) && s != []
    ensures s[0] in s && NoDup(s[1..])
    ensures forall z {:trigger z in s[1..]} {:trigger z in s} :: z in s[1..] <==> z in s && z != s[0]
  {
  }

  /** The nodes of a list and their links. */
  class Links {
    var next: LinkMap
    var prev: LinkMap

    constructor ()
      ensures next == map[] && prev == map[]
    {
      next, prev := map[], map[];
    }

    ghost predicate Holds(head: int, s: seq<int>)
      reads this
    {
      Ring(next, prev, head, s)
    }

    /** rt_list_init. */
    method Init(l: int)
      modifies this
      ensures Holds(l, []) && Elsewhere(old(next), old(prev), next, prev, [l])
    {
      next := next[l := l];
      prev := prev[l := l];
    }

    /** rt_list_insert_after a node, or after the head (`i == 0`). */
    method InsertAfter(l: int, n: int, ghost head: int, ghost s: seq<int>, ghost i: nat)
      requires Holds(head, s) && i <= |s| && l == Left(head, s, i) && n !in s && n != head
      modifies this
      ensures Holds(head, Insert(s, i, n)) && Elsewhere(old(next), old(prev), next, prev, [head, n] + s)
    {
      hide NoDup;
      ChainNeighbours(next, prev, head, s, head, i);
      ChainInsert(next, prev, head, s, head, i, n);
      InsertNoDup(s, i, n);
      var r := next[l];
      prev := prev[r := n];
      next := next[n := next[l]];
      next := next[l := n];
      prev := prev[n := l];
      assert prev == old(prev)[n := l][r := n] && next == old(next)[n := r][l := n];
    }

    /** rt_list_insert_before the node at position `i`; before the head is at the end. */
    method InsertBefore(r: int, n: int, ghost head: int, ghost s: seq<int>, ghost i: nat)
      requires Holds(head, s) && i <= |s| && r == Right(s, i, head) && n !in s && n != head
      modifies this
      ensures Holds(head, Insert(s, i, n)) && Elsewhere(old(next), old(prev), next, prev, [head, n] + s)
    {
      hide NoDup;
      ChainNeighbours(next, prev, head, s, head, i);
      ChainInsert(next, prev, head, s, head, i, n);
      InsertNoDup(s, i, n);
      var l := prev[r];
      next := next[l := n];
      prev := prev[n := prev[r]];
      prev := prev[r := n];
      next := next[n := r];
      assert prev == old(prev)[n := l][r := n] && next == old(next)[n := r][l := n];
    }

    /** rt_list_remove. */
    method Remove(n: int, ghost head: int, ghost s: seq<int>, ghost i: nat)
      requires Holds(head, s) && i < |s| && s[i] == n
      modifies this
      ensures Elsewhere(old(next), old(prev), next, prev, [head, n] + s)
      ensures Holds(head, Without(s, i)) && n in next && n in prev && next[n] == n && prev[n] == n
    {
      hide NoDup;
      ChainRemove(next, prev, head, s, head, i);
      WithoutNoDup(s, i);
      var r, l := next[n], prev[n];
      prev := prev[r := l];
      next := next[l := r];
      ghost var next1, prev1 := next, prev;
      next := next[n := n];
      prev := prev[n := n];
      ChainKept(next1, prev1, next, prev, head, Without(s, i), head);
    }

    /** rt_list_isempty. */
    method IsEmpty(l: int, ghost s: seq<int>) returns (empty: bool)
      requires Holds(l, s)
      ensures empty == (s == [])
    {
      empty := next[l] == l;
    }
  }

  // ----- dropping an element -----

  /** The list without `t`. */
  function Leave(s: seq<int>, t: int): seq<int> {
    if s == [] then [] else if s[0] == t then s[1..] else [s[0]] + Leave(s[1..], t)
  }

  lemma {:induction false} LeaveMembers(s: seq<int>, t: int)
    requires NoDup(s)
    ensures NoDup(Leave(s, t))
    ensures forall z {:trigger z in Leave(s, t)} {:trigger z in s} :: z in Leave(s, t) <==> z in s && z != t
    decreases |s|
  {
    if s != [] {
      LeaveMembers(s[1..], t);
      assert forall z {:trigger z in s} {:trigger z in s[1..]} :: z in s <==> z == s[0] || z in s[1..];
      if s[0] != t {
        var r := Leave(s, t);
        assert r[1..] == Leave(s[1..], t);
        assert forall z {:trigger z in r} {:trigger z in r[1..]} :: z in r <==> z == r[0] || z in r[1..];
      }
    }
  }

  lemma OtherThan(ws: seq<int>, i: nat)
    requires NoDup(ws) && 0 < i < |ws|
    ensures ws[i] != ws[0] && ws[1..][i - 1] == ws[i]
  {
    var t := ws[1..][i - 1];
    assert t in ws[1..];
  }

  lemma {:induction false} LeaveIsWithout(s: seq<int>, i: nat)
    requires NoDup(s) && i < |s|
    ensures Leave(s, s[i]) == Without(s, i)
    decreases |s|
  {
    if i > 0 {
      OtherThan(s, i);
      LeaveIsWithout(s[1..], i - 1);
    }
  }
}
