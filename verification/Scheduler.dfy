/** The ready queue: one circular list a priority, bitmaps that say which lists have threads,
    and the choice of the next thread. */
module Scheduler {
  import opened RingList
  import opened WaitList
  import opened Bitmap

  const PRIORITY_LIMIT: nat := 256

  /** The head node of the list of a priority; threads are the nodes from 0 on. */
  function Head(p: nat): int {
    -1 - p
  }

  type Lists = seq<seq<Thread>>

  /** Which priorities have ready threads. */
  function Occupied(lists: Lists): nat -> bool {
    (p: nat) => p < |lists| && lists[p] != []
  }

  ghost predicate Rings(next: LinkMap, prev: LinkMap, lists: Lists) {
    forall p: nat {:trigger lists[p]} :: p < |lists| ==> Ring(next, prev, Head(p), lists[p])
  }

  /** A ready thread is on the list of its current priority. */
  ghost predicate Filed(lists: Lists, priority: map<Thread, nat>) {
    forall p: nat, t: Thread {:trigger t in lists[p]} :: p < |lists| && t in lists[p] ==>
        t >= 0 && t in priority && priority[t] == p
  }

  ghost predicate Marked(wide: bool, group: Word, table: seq<Word>, lists: Lists) {
    if wide then |lists| <= PRIORITY_LIMIT && TableMarks(group, table, Occupied(lists))
    else |lists| <= 32 && GroupMarks(group, Occupied(lists))
  }

  lemma FiledAt(lists: Lists, priority: map<Thread, nat>, p: nat, t: Thread)
    requires Filed(lists, priority) && p < |lists| && t in lists[p]
    ensures t >= 0 && t in priority && priority[t] == p
  {
  }

  /** Work on the list of priority `p` and a thread of that priority leaves the other lists alone. */
  lemma OtherRings(next: LinkMap, prev: LinkMap, next': LinkMap, prev': LinkMap, lists: Lists,
      priority: map<Thread, nat>, p: nat, t: Thread)
    requires Rings(next, prev, lists) && Filed(lists, priority) && p < |lists| && t >= 0
    requires t in priority && priority[t] == p
    requires Elsewhere(next, prev, next', prev', [Head(p), t] + lists[p])
    ensures forall q: nat {:trigger lists[q]} :: q < |lists| && q != p ==> Ring(next', prev', Head(q), lists[q])
  {
    hide Ring, Elsewhere;
    forall q: nat {:trigger lists[q]} | q < |lists| && q != p ensures Ring(next', prev', Head(q), lists[q]) {
      var nodes := [Head(p), t] + lists[p];
      forall z {:trigger z in lists[q]} | z in lists[q] ensures z !in nodes {
        FiledAt(lists, priority, q, z);
        if z in lists[p] { FiledAt(lists, priority, p, z); }
      }
      if Head(q) in lists[p] { FiledAt(lists, priority, p, Head(q)); }
      RingElsewhere(next, prev, next', prev', nodes, Head(q), lists[q]);
    }
  }

  // ----- the bitmaps -----

  /** `some'` is `some` with priority `p` occupied, or not. */
  ghost predicate Changed(some: nat -> bool, some': nat -> bool, p: nat, on: bool) {
    some'(p) == on && forall q: nat {:trigger some(q)} {:trigger some'(q)} :: q != p ==> (some'(q) <==> some(q))
  }

  lemma GroupChanges(group: Word, some: nat -> bool, some': nat -> bool, p: nat, on: bool)
    requires GroupMarks(group, some) && Changed(some, some', p, on) && p < 32
    ensures GroupMarks(if on then Put(group, p) else Drop(group, p), some')
  {
    hide Bit, Put, Drop;
    var g := if on then Put(group, p) else Drop(group, p);
    forall q: nat {:trigger some'(q)} {:trigger Bit(g, q)} | q < 32 ensures Bit(g, q) <==> some'(q) {
      PutDrop(group, p, q);
      assert Bit(group, q) <==> some(q);
    }
  }

  function EntryChanged(table: seq<Word>, p: nat, on: bool): seq<Word>
    requires |table| == 32 && p < PRIORITY_LIMIT
  {
    table[p / 8 := if on then Put(table[p / 8], p % 8) else Drop(table[p / 8], p % 8)]
  }

  lemma TableChanges(group: Word, table: seq<Word>, some: nat -> bool, some': nat -> bool, p: nat, on: bool)
    requires TableMarks(group, table, some) && Changed(some, some', p, on) && p < PRIORITY_LIMIT
    ensures var t, n := EntryChanged(table, p, on), p / 8;
            TableMarks(if on then Put(group, n) else if t[n] == 0 then Drop(group, n) else group, t, some')
  {
    var t, n := EntryChanged(table, p, on), p / 8;
    EntryBits(table, some, some', p, on);
    GroupBits(group, table, p, on);
    hide Bit, Put, Drop, EntryChanged;
  }

  lemma EntryBits(table: seq<Word>, some: nat -> bool, some': nat -> bool, p: nat, on: bool)
    requires |table| == 32 && Changed(some, some', p, on) && p < PRIORITY_LIMIT
    requires forall n: nat, k: nat {:trigger Bit(table[n], k)} :: n < 32 && k < 32 ==>
               (Bit(table[n], k) <==> k < 8 && some(8 * n + k))
    ensures var t := EntryChanged(table, p, on);
            forall n: nat, k: nat {:trigger Bit(t[n], k)} :: n < 32 && k < 32 ==>
                (Bit(t[n], k) <==> k < 8 && some'(8 * n + k))
  {
    hide Bit, Put, Drop;
    var t := EntryChanged(table, p, on);
    forall n: nat, k: nat {:trigger Bit(t[n], k)} | n < 32 && k < 32
      ensures Bit(t[n], k) <==> k < 8 && some'(8 * n + k) {
      assert Bit(table[n], k) <==> k < 8 && some(8 * n + k);
      PutDrop(table[p / 8], p % 8, k);
      assert 8 * (p / 8) + p % 8 == p;
    }
  }

  lemma GroupBits(group: Word, table: seq<Word>, p: nat, on: bool)
    requires |table| == 32 && p < PRIORITY_LIMIT
    requires forall n: nat {:trigger table[n]} {:trigger Bit(group, n)} :: n < 32 ==> (Bit(group, n) <==> table[n] != 0)
    ensures var t, n := EntryChanged(table, p, on), p / 8;
            var g := if on then Put(group, n) else if t[n] == 0 then Drop(group, n) else group;
            forall m: nat {:trigger t[m]} {:trigger Bit(g, m)} :: m < 32 ==> (Bit(g, m) <==> t[m] != 0)
  {
    hide Bit, Put, Drop;
    var t, n := EntryChanged(table, p, on), p / 8;
    var g := if on then Put(group, n) else if t[n] == 0 then Drop(group, n) else group;
    PutDrop(table[n], p % 8, p % 8);
    if on { ZeroHasNoBits(t[n]); }
    if !on && t[n] != 0 {
      ZeroHasNoBits(t[n]);
      ZeroHasNoBits(table[n]);
      StillSome(table[n], t[n], p % 8);
    }
    forall m: nat {:trigger t[m]} {:trigger Bit(g, m)} | m < 32 ensures Bit(g, m) <==> t[m] != 0 {
      PutDrop(group, n, m);
      assert Bit(group, m) <==> table[m] != 0;
    }
  }

  /** Clearing a bit cannot make a word that was 0 anything else. */
  lemma StillSome(v: Word, r: Word, p: nat)
    requires r == Drop(v, p) && r != 0
    ensures v != 0
  {
    hide Mask;
  }

  /** One list gets its first thread, or loses its last. */
  lemma MarksFollow(wide: bool, group: Word, table: seq<Word>, lists: Lists, p: nat, s: seq<Thread>)
    requires Marked(wide, group, table, lists) && p < |lists| && |table| == 32
    ensures var lists', on, n := lists[p := s], s != [], p / 8;
            if wide then
              p < PRIORITY_LIMIT && n < 32
              && var t := EntryChanged(table, p, on);
                 Marked(wide, if on then Put(group, n) else if t[n] == 0 then Drop(group, n) else group, t, lists')
            else p < 32 && Marked(wide, if on then Put(group, p) else Drop(group, p), table, lists')
    ensures lists[p] != [] && s != [] ==> Marked(wide, group, table, lists[p := s])
  {
    hide Bit, Put, Drop, EntryChanged;
    var lists' := lists[p := s];
    if wide {
      TableChanges(group, table, Occupied(lists), Occupied(lists'), p, s != []);
    } else {
      GroupChanges(group, Occupied(lists), Occupied(lists'), p, s != []);
    }
    if lists[p] != [] && s != [] { SameOccupied(wide, group, table, lists, lists'); }
  }

  lemma SameOccupied(wide: bool, group: Word, table: seq<Word>, lists: Lists, lists': Lists)
    requires Marked(wide, group, table, lists) && |lists'| == |lists|
    requires forall q: nat {:trigger lists'[q]} :: q < |lists| ==> (lists'[q] == [] <==> lists[q] == [])
    ensures Marked(wide, group, table, lists')
  {
    hide Bit;
    var some, some' := Occupied(lists), Occupied(lists');
    assert forall q: nat {:trigger some'(q)} {:trigger some(q)} :: some'(q) <==> some(q);
  }

  // ----- the ready queue in place -----

  datatype Current = NoThread | Running(thread: Thread)

  /** What each thread keeps of its priority: its number mask, and in the two-level form its
      table index and its mask within the table entry. */
  datatype Attributes = Narrow(numberMask: Word) | Wide(number: nat, numberMask: Word, highMask: Word)

  /** The attributes that fit a priority. */
  function AttributesOf(wide: bool, p: nat): Attributes {
    if wide then Wide(p / 8, Mask(p / 8), Mask(p % 8)) else Narrow(Mask(p))
  }

  ghost predicate InStep(wide: bool, priority: map<Thread, nat>, attributes: map<Thread, Attributes>) {
    forall t {:trigger priority[t]} {:trigger attributes[t]} :: t in priority ==>
      t in attributes && attributes[t] == AttributesOf(wide, priority[t])
  }

  lemma AttributesAt(wide: bool, priority: map<Thread, nat>, attributes: map<Thread, Attributes>, t: Thread)
    requires InStep(wide, priority, attributes) && t in priority
    ensures t in attributes && attributes[t] == AttributesOf(wide, priority[t])
  {
  }

  /** The calculation in rt_thread_startup and rt_thread_control. */
  method Calculate(wide: bool, p: nat) returns (a: Attributes)
    requires p < if wide then PRIORITY_LIMIT else 32
    ensures a == AttributesOf(wide, p)
  {
    if wide {
      MaskIsShift(p / 8);
      MaskIsShift(p % 8);
      a := Wide(p / 8, 1 << (p / 8), 1 << (p % 8));
    } else {
      MaskIsShift(p);
      a := Narrow(1 << p);
    }
  }

  class ReadyQueue {
    /** RT_THREAD_PRIORITY_MAX, which selects the form of the bitmap. */
    const max: nat
    /** rt_thread_priority_table and the threads' list nodes. */
    const ready: Links
    var group: Word
    const table: array<Word>
    /** current_priority of every thread. */
    var priority: map<Thread, nat>
    /** number, number_mask and high_mask of every thread. */
    var attributes: map<Thread, Attributes>
    var currentThread: Current
    var currentPriority: nat
    var lockNest: int
    /** The lists by priority. */
    ghost var lists: Lists

    ghost predicate Valid()
      reads this, ready, table
    {
      && 0 < max <= PRIORITY_LIMIT && |lists| == max && table.Length == 32
      && Rings(ready.next, ready.prev, lists) && Filed(lists, priority)
      && Marked(max > 32, group, table[..], lists) && InStep(max > 32, priority, attributes)
    }

    /** rt_system_scheduler_init. */
    constructor (max: nat)
      requires 0 < max <= PRIORITY_LIMIT
      ensures Valid() && this.max == max && priority == map[] && fresh(ready) && fresh(table)
      ensures currentThread == NoThread && lockNest == 0
      ensures forall p {:trigger lists[p]} :: 0 <= p < max ==> lists[p] == []
    {
      this.max, priority, attributes := max, map[], map[];
      var l := new Links();
      ghost var ls: Lists := [];
      for p := 0 to max
        invariant Rings(l.next, l.prev, ls) && |ls| == p && fresh(l)
        invariant forall q {:trigger ls[q]} :: 0 <= q < p ==> ls[q] == []
      {
        ghost var n0, p0 := l.next, l.prev;
        l.Init(Head(p));
        OneMoreRing(n0, p0, l.next, l.prev, ls);
        ls := ls + [[]];
      }
      ready := l;
      lists := ls;
      group := 0;
      table := new Word[32](_ => 0);
      currentThread, currentPriority, lockNest := NoThread, max - 1, 0;
      new;
    }

    /** rt_thread_startup of a new thread, up to the call of the scheduler. */
    method Startup(t: Thread, p: nat)
      requires t >= 0 && t !in priority && p < max
      requires Valid()
      modifies `group, `lists, `priority, `attributes, ready, table
      ensures priority == old(priority)[t := p]
      ensures p < |old(lists)| && lists == old(lists)[p := old(lists)[p] + [t]]
      ensures Valid()
    {
      hide Ring, Rings, Marked;
      var a := Calculate(max > 32, p);
      priority, attributes := priority[t := p], attributes[t := a];
      InsertThread(t);
    }

    /** rt_schedule_insert_thread: the thread goes last in the list of its priority. */
    method InsertThread(t: Thread)
      requires t >= 0 && t in priority && priority[t] < max
      requires Valid() && t !in lists[priority[t]]
      modifies `group, `lists, ready, table
      ensures lists == old(lists)[priority[t] := old(lists)[priority[t]] + [t]]
      ensures Valid()
    {
      hide Ring, Marked, Elsewhere, Or, Mask, Insert, InStep;
      var p := priority[t];
      ghost var l := lists;
      AttributesAt(max > 32, priority, attributes, t);
      MarksFollow(max > 32, group, table[..], l, p, l[p] + [t]);
      InsertLast(l[p], t);
      ready.InsertBefore(Head(p), t, Head(p), l[p], |l[p]|);
      OtherRings(old(ready.next), old(ready.prev), ready.next, ready.prev, l, priority, p, t);
      if max > 32 {
        table[attributes[t].number] := Or(table[attributes[t].number], attributes[t].highMask);
        group := Or(group, attributes[t].numberMask);
        assert table[..] == EntryChanged(old(table[..]), p, true);
      } else {
        group := Or(group, attributes[t].numberMask);
        assert table[..] == old(table[..]);
      }
      lists := l[p := l[p] + [t]];
    }

    /** rt_schedule_remove_thread. */
    method RemoveThread(t: Thread, ghost i: nat)
      requires t in priority && priority[t] < max
      requires Valid() && i < |lists[priority[t]]| && lists[priority[t]][i] == t
      modifies `group, `lists, ready, table
      ensures i < |old(lists)[priority[t]]|
      ensures lists == old(lists)[priority[t] := Without(old(lists)[priority[t]], i)]
      ensures Valid()
    {
      hide Ring, Marked, Elsewhere, AndNot, Mask, Without, InStep;
      var p := priority[t];
      ghost var l := lists;
      ghost var s := Without(l[p], i);
      AttributesAt(max > 32, priority, attributes, t);
      MarksFollow(max > 32, group, table[..], l, p, s);
      FiledAt(l, priority, p, t);
      WithoutMembers(l[p], i);
      ready.Remove(t, Head(p), l[p], i);
      OtherRings(old(ready.next), old(ready.prev), ready.next, ready.prev, l, priority, p, t);
      var empty := ready.IsEmpty(Head(p), s);
      if empty {
        if max > 32 {
          table[attributes[t].number] := AndNot(table[attributes[t].number], attributes[t].highMask);
          if table[attributes[t].number] == 0 { group := AndNot(group, attributes[t].numberMask); }
          assert table[..] == EntryChanged(old(table[..]), p, false);
        } else {
          group := AndNot(group, attributes[t].numberMask);
          assert table[..] == old(table[..]);
        }
      } else {
        assert table[..] == old(table[..]);
      }
      lists := l[p := s];
    }

    /** rt_schedule: the head of the least priority's list runs next. */
    method Schedule(ghost p: nat)
      requires Valid() && p < max && lists[p] != []
      modifies `currentThread, `currentPriority
      ensures lockNest != 0 ==> currentThread == old(currentThread) && currentPriority == old(currentPriority)
      ensures lockNest == 0 ==>
                var h := HighestReady(max > 32, group, if max > 32 then table[..] else []);
                && h < max && IsLeast(Occupied(lists), h) && lists[h] != []
                && currentThread == Running(lists[h][0])
                && currentPriority == if old(currentThread) == currentThread then old(currentPriority) else h
    {
      hide Ring, Rings, Filed, Marked, HighestReady, IsLeast, InStep;
      if lockNest == 0 {
        var highest := HighestPriority(p);
        var to := FirstReady(highest);
        if currentThread != Running(to) {
          currentPriority := highest;
          currentThread := Running(to);
        }
      }
    }

    /** The least priority with a ready thread, from the bitmaps. */
    method HighestPriority(ghost p: nat) returns (highest: nat)
      requires Valid() && p < max && lists[p] != []
      ensures highest == HighestReady(max > 32, group, if max > 32 then table[..] else [])
      ensures highest < max && IsLeast(Occupied(lists), highest) && lists[highest] != []
    {
      hide Ring, Rings, Filed, Marked, HighestReady, IsLeast, InStep, Ffs;
      HighestIsLeast(max > 32, group, table[..], lists, p);
      if max > 32 {
        var number := Ffs(group) - 1;
        highest := number * 8 + Ffs(table[number]) - 1;
      } else {
        highest := Ffs(group) - 1;
      }
    }

    /** The head of a list that is not empty. */
    method FirstReady(p: nat) returns (t: Thread)
      requires Valid() && p < max && lists[p] != []
      ensures t == lists[p][0]
    {
      hide Ring, Filed, Marked, InStep;
      FirstOf(ready.next, ready.prev, Head(p), lists[p]);
      t := ready.next[Head(p)];
    }

    /** rt_thread_yield of the running thread: behind its equals, if there are any. */
    method Yield(ghost i: nat)
      requires currentThread.Running? && currentThread.thread in priority && priority[currentThread.thread] < max
      requires Valid() && i < |lists[priority[currentThread.thread]]|
               && lists[priority[currentThread.thread]][i] == currentThread.thread
      modifies `lists, `currentThread, `currentPriority, ready
      ensures var t := old(currentThread.thread);
              var s := old(lists[priority[t]]);
              && i < |s| && lists == (if |s| > 1 then old(lists)[priority[t] := Without(s, i) + [t]] else old(lists))
              && (|s| > 1 && lockNest == 0 ==>
                   var h := HighestReady(max > 32, group, if max > 32 then table[..] else []);
                   h < max && IsLeast(Occupied(lists), h) && lists[h] != [] && currentThread == Running(lists[h][0]))
              && (|s| == 1 || lockNest != 0 ==> currentThread == old(currentThread))
      ensures Valid()
    {
      hide Ring, Marked, Elsewhere, Without, Insert, IsLeast, HighestReady;
      var t := currentThread.thread;
      var p := priority[t];
      ghost var l, s := lists, Without(lists[p], i);
      FiledAt(l, priority, p, t);
      Neighbours(ready.next, ready.prev, Head(p), l[p], i);
      if ready.next[t] != ready.prev[t] {
        Departed(ready.next, ready.prev, l, priority, t, i, p);
        WithoutMembers(l[p], i);
        InsertLast(s, t);
        SameOccupied(max > 32, group, table[..], l, l[p := s + [t]]);
        ready.Remove(t, Head(p), l[p], i);
        OtherRings(old(ready.next), old(ready.prev), ready.next, ready.prev, l, priority, p, t);
        label Removed:
        ghost var l1 := l[p := s];
        ready.InsertBefore(Head(p), t, Head(p), s, |s|);
        OtherRings(old@Removed(ready.next), old@Removed(ready.prev), ready.next, ready.prev, l1, priority, p, t);
        lists := l1[p := s + [t]];
        assert lists == l[p := s + [t]] && table[..] == old(table[..]);
        Schedule(p);
      }
    }

    /** RT_THREAD_CTRL_CHANGE_PRIORITY: a ready thread changes lists, any other one only its
        attributes. */
    method ChangePriority(t: Thread, p: nat, isReady: bool, ghost i: nat)
      requires t in priority && priority[t] < max && p < max
      requires Valid() && (!isReady ==> t !in lists[priority[t]])
      requires isReady ==> i < |lists[priority[t]]| && lists[priority[t]][i] == t
      modifies `group, `lists, `priority, `attributes, ready, table
      ensures priority == old(priority)[t := p]
      ensures !isReady ==> lists == old(lists)
      ensures isReady ==>
                var l, q := old(lists), old(priority)[t];
                i < |l[q]| && var r := l[q := Without(l[q], i)]; lists == r[p := r[p] + [t]]
      ensures Valid()
    {
      hide Ring, Rings, Marked, Without;
      if isReady {
        FiledAt(lists, priority, priority[t], t);
        Departed(ready.next, ready.prev, lists, priority, t, i, p);
        RemoveThread(t, i);
        var a := Calculate(max > 32, p);
        priority, attributes := priority[t := p], attributes[t := a];
        InsertThread(t);
      } else {
        var a := Calculate(max > 32, p);
        priority, attributes := priority[t := p], attributes[t := a];
      }
    }
  }

  lemma Neighbours(next: LinkMap, prev: LinkMap, h: int, s: seq<Thread>, i: nat)
    requires Ring(next, prev, h, s) && i < |s|
    ensures s[i] in next && s[i] in prev && (next[s[i]] == prev[s[i]] <==> |s| == 1)
  {
    ChainNeighbours(next, prev, h, s, h, i);
    ChainNeighbours(next, prev, h, s, h, i + 1);
    hide Chain;
    if 0 < i && i + 1 < |s| { Distinct(s, i - 1, i + 1); }
  }

  lemma InsertLast(s: seq<Thread>, t: Thread)
    ensures Insert(s, |s|, t) == s + [t] && forall z {:trigger z in s + [t]} :: z in s + [t] <==> z in s || z == t
  {
  }

  lemma WithoutMembers(s: seq<Thread>, i: nat)
    requires i < |s|
    ensures forall z {:trigger z in Without(s, i)} :: z in Without(s, i) ==> z in s
    ensures Without(s, i) != [] ==> s != []
  {
  }

  lemma FirstOf(next: LinkMap, prev: LinkMap, h: int, s: seq<Thread>)
    requires Ring(next, prev, h, s) && s != []
    ensures h in next && next[h] == s[0]
  {
  }

  /** The computation finds the least occupied priority. */
  lemma HighestIsLeast(wide: bool, group: Word, table: seq<Word>, lists: Lists, p: nat)
    requires Marked(wide, group, table, lists) && p < |lists| && lists[p] != []
    ensures var h := HighestReady(wide, group, if wide then table else []);
            && IsLeast(Occupied(lists), h) && h < |lists| && lists[h] != []
            && Ffs(group) >= 1
            && (wide ==> Ffs(group) - 1 < |table| && Ffs(table[Ffs(group) - 1]) >= 1
                         && h == (Ffs(group) - 1) * 8 + Ffs(table[Ffs(group) - 1]) - 1)
            && (!wide ==> h == Ffs(group) - 1)
  {
    hide Ffs, Bit;
    var some := Occupied(lists);
    assert some(p);
    if wide {
      TableHas(group, table, some, p);
      FfsIsLowest(group);
      var n := Ffs(group) - 1;
      LowestIsLowest(group, n);
      FfsIsLowest(table[n]);
      TableIsLeast(group, table, some, p);
    } else {
      assert Bit(group, p);
      ZeroHasNoBits(group);
      FfsIsLowest(group);
      GroupIsLeast(group, some, p);
    }
  }

  /** Off its list, a thread is on none. */
  lemma Departed(next: LinkMap, prev: LinkMap, lists: Lists, priority: map<Thread, nat>, t: Thread, i: nat, p: nat)
    requires Rings(next, prev, lists) && Filed(lists, priority) && t in priority && priority[t] < |lists| && p < |lists|
    requires i < |lists[priority[t]]| && lists[priority[t]][i] == t
    ensures var l := lists[priority[t] := Without(lists[priority[t]], i)];
            t !in l[p] && Filed(l, priority[t := p])
  {
    var q := priority[t];
    assert Ring(next, prev, Head(q), lists[q]);
    WithoutNoDup(lists[q], i);
    hide Ring, NoDup, Without, Rings;
  }

  lemma OneMoreRing(next: LinkMap, prev: LinkMap, next': LinkMap, prev': LinkMap, ls: Lists)
    requires Rings(next, prev, ls) && Elsewhere(next, prev, next', prev', [Head(|ls|)])
    requires Ring(next', prev', Head(|ls|), []) && forall q {:trigger ls[q]} :: 0 <= q < |ls| ==> ls[q] == []
    ensures Rings(next', prev', ls + [[]])
  {
    hide Ring, Elsewhere;
    var t := ls + [[]];
    forall q: nat {:trigger t[q]} | q < |t| ensures Ring(next', prev', Head(q), t[q]) {
      if q < |ls| {
        assert ls[q] == [];
        RingElsewhere(next, prev, next', prev', [Head(|ls|)], Head(q), []);
      }
    }
  }
}
