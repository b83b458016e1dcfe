/** Suspending a thread on a kernel object: rt_ipc_list_suspend over the circular list, and
    the order it keeps. */
module WaitList {
  import opened RingList

  type Thread = int

  datatype Flag = FIFO | PRIO

  /** Current priorities; smaller is more urgent. */
  type Priorities = map<Thread, nat>

  /** A thread's `error` field, as far as the objects set it. */
  datatype Error = EOK | ETIMEOUT | ERROR

  function Prio(p: Priorities, t: Thread): nat {
    if t in p then p[t] else 0xFF
  }

  /** The first waiter that is strictly less urgent than `t`, or the end. */
  function PrioPos(s: seq<Thread>, t: Thread, p: Priorities): (k: nat)
    ensures k <= |s|
  {
    if s == [] || Prio(p, t) < Prio(p, s[0]) then 0 else 1 + PrioPos(s[1..], t, p)
  }

  function Enqueue(s: seq<Thread>, t: Thread, p: Priorities, flag: Flag): seq<Thread> {
    Insert(s, if flag == PRIO then PrioPos(s, t, p) else |s|, t)
  }

  ghost predicate Sorted(s: seq<Thread>, p: Priorities) {
    forall i, j :: 0 <= i < j < |s| ==> Prio(p, s[i]) <= Prio(p, s[j])
  }

  lemma {:induction false} PrioPosSplits(s: seq<Thread>, t: Thread, p: Priorities)
    ensures var k := PrioPos(s, t, p);
            && (forall i {:trigger s[i]} :: 0 <= i < k ==> Prio(p, s[i]) <= Prio(p, t))
            && (k < |s| ==> Prio(p, t) < Prio(p, s[k]))
    decreases |s|
  {
    if s != [] && !(Prio(p, t) < Prio(p, s[0])) { PrioPosSplits(s[1..], t, p); }
  }

  lemma SortedAt(s: seq<Thread>, p: Priorities, i: nat, j: nat)
    requires Sorted(s, p) && i <= j < |s|
    ensures Prio(p, s[i]) <= Prio(p, s[j])
  {
  }

  lemma SortedIf(s: seq<Thread>, p: Priorities)
    requires forall i, j :: 0 <= i < j < |s| ==> Prio(p, s[i]) <= Prio(p, s[j])
    ensures Sorted(s, p)
  {
  }

  /** A priority list stays sorted. */
  lemma EnqueueKeepsSorted(s: seq<Thread>, t: Thread, p: Priorities)
    requires Sorted(s, p)
    ensures Sorted(Enqueue(s, t, p, PRIO), p)
  {
    hide Insert, PrioPos, Prio, Sorted, Without;
    var r, k := Enqueue(s, t, p, PRIO), PrioPos(s, t, p);
    EnqueueIsStable(s, t, p);
    InsertAt(s, k, t);
    forall i, j | 0 <= i < j < |r| ensures Prio(p, r[i]) <= Prio(p, r[j]) {
      if i != k && j != k { SortedAt(s, p, if i < k then i else i - 1, if j < k then j else j - 1); }
    }
    SortedIf(r, p);
  }

  /** And stably so: the newcomer goes behind every thread at least as urgent and before every
      less urgent one, and nobody else is reordered. */
  lemma EnqueueIsStable(s: seq<Thread>, t: Thread, p: Priorities)
    requires Sorted(s, p)
    ensures var r, k := Enqueue(s, t, p, PRIO), PrioPos(s, t, p);
            && |r| == |s| + 1 && r[k] == t && Without(r, k) == s
            && (forall i {:trigger r[i]} :: 0 <= i < k ==> Prio(p, r[i]) <= Prio(p, t))
            && (forall i {:trigger r[i]} :: k < i < |r| ==> Prio(p, t) < Prio(p, r[i]))
  {
    hide Insert, PrioPos, Prio, Sorted, Without;
    var r, k := Enqueue(s, t, p, PRIO), PrioPos(s, t, p);
    PrioPosSplits(s, t, p);
    InsertAt(s, k, t);
    forall i {:trigger r[i]} | k < i < |r| ensures Prio(p, t) < Prio(p, r[i]) {
      SortedAt(s, p, k, i - 1);
    }
  }

  /** First in, first out: the newcomer goes last. */
  lemma EnqueueLast(s: seq<Thread>, t: Thread, p: Priorities)
    ensures Enqueue(s, t, p, FIFO) == s + [t]
  {
  }

  lemma InsertAt(s: seq<Thread>, k: nat, t: Thread)
    requires k <= |s|
    ensures var r := Insert(s, k, t);
            && |r| == |s| + 1 && r[k] == t && Without(r, k) == s
            && (forall i {:trigger r[i]} :: 0 <= i < k ==> r[i] == s[i])
            && (forall i {:trigger r[i]} :: k < i < |r| ==> r[i] == s[i - 1])
  {
  }

  lemma EnqueueMembers(s: seq<Thread>, t: Thread, p: Priorities, flag: Flag)
    ensures |Enqueue(s, t, p, flag)| == |s| + 1
    ensures forall z {:trigger z in Enqueue(s, t, p, flag)} {:trigger z in s} ::
              z in Enqueue(s, t, p, flag) <==> z in s || z == t
    ensures NoDup(s) && t !in s ==> NoDup(Enqueue(s, t, p, flag))
  {
    var k := if flag == PRIO then PrioPos(s, t, p) else |s|;
    InsertMembers(s, k, t);
    if NoDup(s) && t !in s { InsertNoDup(s, k, t); }
  }

  lemma {:induction false} Distinct(s: seq<Thread>, i: nat, j: nat)
    requires NoDup(s) && i < j < |s|
    ensures s[i] != s[j]
    decreases i
  {
    if i == 0 { OtherThan(s, j); } else { Distinct(s[1..], i - 1, j - 1); }
  }

  lemma {:induction false} LeaveKeepsSorted(s: seq<Thread>, t: Thread, p: Priorities)
    requires Sorted(s, p)
    ensures Sorted(Leave(s, t), p)
    ensures forall z {:trigger z in Leave(s, t)} :: z in Leave(s, t) ==> z in s
    decreases |s|
  {
    if s != [] && s[0] != t {
      LeaveKeepsSorted(s[1..], t, p);
      var r := Leave(s, t);
      forall i, j | 0 <= i < j < |r| ensures Prio(p, r[i]) <= Prio(p, r[j]) {
        if i == 0 { assert r[j] == Leave(s[1..], t)[j - 1] && r[j] in Leave(s[1..], t); }
      }
    }
  }

  /** One step of a first-in first-out run, followed by the rest of it. */
  lemma Rebracket<T>(q: seq<T>, s: seq<T>, s': seq<T>, r: seq<T>, r': seq<T>, q1: seq<T>, q2: seq<T>)
    requires q + s == r + q1 && q1 + s' == r' + q2
    ensures q + (s + s') == (r + r') + q2
  {
    assert q + (s + s') == (q + s) + s';
    assert r + (q1 + s') == (r + q1) + s';
  }

  // ----- what the threads are doing -----

  /** rt_ipc_list_resume_all: every thread of the list ends up in the same phase. */
  function FailAll<P>(phase: map<Thread, P>, waiters: seq<Thread>, failed: P): map<Thread, P> {
    map t | t in phase :: if t in waiters then failed else phase[t]
  }

  /** Every waiter has failed and nobody else is affected. */
  ghost predicate AllFailed<P>(phase: map<Thread, P>, waiters: seq<Thread>, failed: P, phase': map<Thread, P>) {
    phase'.Keys == phase.Keys && forall t {:trigger phase'[t]} :: t in phase ==>
      phase'[t] == if t in waiters then failed else phase[t]
  }

  /** The threads whose phase satisfies `p`. */
  function In<P>(phase: map<Thread, P>, p: P -> bool): set<Thread> {
    set t | t in phase && p(phase[t])
  }

  lemma InWithout<P>(phase: map<Thread, P>, t: Thread, p: P -> bool)
    ensures |In(phase - {t}, p)| == |In(phase, p)| - (if t in phase && p(phase[t]) then 1 else 0)
  {
    assert In(phase - {t}, p) == In(phase, p) - {t};
  }

  lemma InWith<P>(phase: map<Thread, P>, t: Thread, v: P, p: P -> bool)
    requires t in phase ==> !p(phase[t])
    ensures |In(phase[t := v], p)| == |In(phase, p)| + (if p(v) then 1 else 0)
  {
    assert In(phase[t := v], p) == if p(v) then In(phase, p) + {t} else In(phase, p);
  }

  // ----- the list in place -----

  function SetErrors(error: map<Thread, Error>, ts: seq<Thread>, e: Error): map<Thread, Error> {
    map t | t in error.Keys + (set x | x in ts) :: if t in ts then e else error[t]
  }

  /** rt_ipc_list_suspend on the list with head node `list`. */
  method Suspend(links: Links, list: int, thread: Thread, p: Priorities, flag: Flag, ghost s: seq<Thread>)
    requires links.Holds(list, s) && thread !in s && thread != list
    modifies links
    ensures links.Holds(list, Enqueue(s, thread, p, flag))
    ensures Elsewhere(old(links.next), old(links.prev), links.next, links.prev, [list, thread] + s)
  {
    match flag
    case FIFO =>
      links.InsertBefore(list, thread, list, s, |s|);
    case PRIO =>
      ChainNeighbours(links.next, links.prev, list, s, list, 0);
      var n := links.next[list];
      ghost var k := 0;
      assert s[0..] == s;
      while n != list
        invariant links.next == old(links.next) && links.prev == old(links.prev)
        invariant k <= |s| && n == Right(s, k, list) && PrioPos(s, thread, p) == k + PrioPos(s[k..], thread, p)
        decreases |s| - k
      {
        if Prio(p, thread) < Prio(p, n) {
          links.InsertBefore(n, thread, list, s, k);
          return;
        }
        ChainNeighbours(links.next, links.prev, list, s, list, k + 1);
        assert s[k..][1..] == s[k + 1..];
        n := links.next[n];
        k := k + 1;
      }
      links.InsertBefore(list, thread, list, s, |s|);
  }

  /** rt_ipc_list_resume: the first thread leaves the list. */
  method ResumeFirst(links: Links, list: int, ghost s: seq<Thread>) returns (thread: Thread)
    requires links.Holds(list, s) && s != []
    modifies links
    ensures thread == s[0] && links.Holds(list, s[1..])
    ensures Elsewhere(old(links.next), old(links.prev), links.next, links.prev, [list] + s)
  {
    ChainNeighbours(links.next, links.prev, list, s, list, 0);
    thread := links.next[list];
    assert Without(s, 0) == s[1..];
    links.Remove(thread, list, s, 0);
    SameNodes(list, s, 0);
  }

  /** rt_ipc_list_resume_all: every thread leaves the list, with an error. */
  method ResumeAll(links: Links, list: int, error: map<Thread, Error>, ghost s: seq<Thread>)
      returns (error': map<Thread, Error>)
    requires links.Holds(list, s)
    modifies links
    ensures links.Holds(list, []) && error' == SetErrors(error, s, ERROR)
    ensures Elsewhere(old(links.next), old(links.prev), links.next, links.prev, [list] + s)
  {
    hide Ring, NoDup;
    ghost var k := 0;
    error' := error;
    assert s[0..] == s;
    var empty := links.IsEmpty(list, s);
    while !empty
      invariant k <= |s| && links.Holds(list, s[k..]) && empty == (s[k..] == [])
      invariant error' == SetErrors(error, s[..k], ERROR)
      invariant Elsewhere(old(links.next), old(links.prev), links.next, links.prev, [list] + s)
      decreases |s| - k
    {
      ghost var next, prev := links.next, links.prev;
      assert s[k..][1..] == s[k + 1..] && s[..k + 1] == s[..k] + [s[k]];
      var thread := ResumeFirst(links, list, s[k..]);
      ElsewhereToo(old(links.next), old(links.prev), next, prev, links.next, links.prev, [list] + s, [list] + s[k..]);
      error' := error'[thread := ERROR];
      k := k + 1;
      empty := links.IsEmpty(list, s[k..]);
    }
    assert s[..k] == s;
  }

  /** The timer of a suspended thread takes it off the list. */
  method Withdraw(links: Links, thread: Thread, ghost list: int, ghost s: seq<Thread>)
    requires links.Holds(list, s) && thread in s
    modifies links
    ensures links.Holds(list, Leave(s, thread))
    ensures Elsewhere(old(links.next), old(links.prev), links.next, links.prev, [list] + s)
  {
    hide Ring;
    ghost var i :| 0 <= i < |s| && s[i] == thread;
    NodesApart(links.next, links.prev, list, s);
    LeaveIsWithout(s, i);
    links.Remove(thread, list, s, i);
    SameNodes(list, s, i);
  }

  lemma NodesApart(next: LinkMap, prev: LinkMap, list: int, s: seq<Thread>)
    requires Ring(next, prev, list, s)
    ensures NoDup(s) && list !in s
  {
  }

  lemma SameNodes(list: int, s: seq<Thread>, i: nat)
    requires i < |s|
    ensures forall z {:trigger z in [list] + s} {:trigger z in [list, s[i]] + s} ::
              z in [list] + s <==> z in [list, s[i]] + s
  {
  }

  lemma ElsewhereToo(next: LinkMap, prev: LinkMap, next1: LinkMap, prev1: LinkMap, next2: LinkMap, prev2: LinkMap,
      nodes: seq<int>, some: seq<int>)
    requires Elsewhere(next, prev, next1, prev1, nodes) && Elsewhere(next1, prev1, next2, prev2, some)
    requires forall z {:trigger z in some} :: z in some ==> z in nodes
    ensures Elsewhere(next, prev, next2, prev2, nodes)
  {
    forall z {:trigger z in nodes} | z !in nodes
      ensures (z in next ==> z in next2 && next2[z] == next[z]) && (z in prev ==> z in prev2 && prev2[z] == prev[z])
    {
      assert z !in some;
    }
  }
}
