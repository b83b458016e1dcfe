/** The kernel's mutex: recursive taking, hand-over to the first waiter, and priority
    inheritance. Every interrupt-disabled region is one step. */
module Mutex {
  import opened RingList
  import opened WaitList

  /** `hold` is an unsigned byte, and 0xFF stands for no priority. */
  const HOLD_LIMIT: nat := 256
  const NO_PRIORITY: nat := 0xFF

  datatype Owner = Nobody | Held(holder: Thread)

  /** A thread inside rt_mutex_take, after its first region. */
  datatype Phase = Waiting | Granted | Failed

  /** `depth` counts the owner's takes that have not been matched by a release; the code keeps
      only `hold`. */
  datatype State = State(
    value: nat, owner: Owner, hold: nat, original: nat, depth: nat,
    waiters: seq<Thread>, phase: map<Thread, Phase>, prio: Priorities)

  datatype Event =
    | Take(t: Thread, wait: bool)
    | Release(t: Thread)
    | Return(t: Thread)
    | Expire(t: Thread)

  // ----- the steps -----

  predicate Enabled(st: State, e: Event) {
    match e
    case Take(t, wait) => t !in st.phase
    case Release(t) => t !in st.phase
    case Return(t) => t in st.phase && st.phase[t] != Waiting
    case Expire(t) => t in st.phase && st.phase[t] == Waiting
  }

  /** rt_thread_control of the owner's priority when a more urgent thread has to wait. */
  function Boost(prio: Priorities, owner: Owner, t: Thread): Priorities {
    if owner.Held? && Prio(prio, t) < Prio(prio, owner.holder) then prio[owner.holder := Prio(prio, t)] else prio
  }

  function Step(st: State, e: Event, flag: Flag): State
    requires Enabled(st, e)
  {
    match e
    case Take(t, wait) =>
      if st.owner == Held(t) then st.(hold := (st.hold + 1) % HOLD_LIMIT, depth := st.depth + 1)
      else if st.value > 0 then
        st.(value := st.value - 1, owner := Held(t), original := Prio(st.prio, t),
            hold := (st.hold + 1) % HOLD_LIMIT, depth := 1)
      else if !wait then st
      else st.(prio := Boost(st.prio, st.owner, t),
               waiters := Enqueue(st.waiters, t, Boost(st.prio, st.owner, t), flag), phase := st.phase[t := Waiting])
    case Release(t) =>
      if st.owner != Held(t) then st
      else if st.hold != 1 then
        st.(hold := (st.hold + HOLD_LIMIT - 1) % HOLD_LIMIT, depth := if st.depth > 0 then st.depth - 1 else 0)
      else GiveUp(st, t)
    case Return(t) => st.(phase := st.phase - {t})
    case Expire(t) => st.(waiters := Leave(st.waiters, t), phase := st.phase[t := Failed])
  }

  /** The release that brings `hold` to 0: restore the priority, hand over or free. */
  function GiveUp(st: State, t: Thread): State {
    var prio := if st.original != Prio(st.prio, t) then st.prio[t := st.original] else st.prio;
    if st.waiters != [] then
      var w := st.waiters[0];
      st.(owner := Held(w), original := Prio(prio, w), hold := 1, depth := 1,
          waiters := st.waiters[1..], phase := st.phase[w := Granted], prio := prio)
    else st.(value := st.value + 1, owner := Nobody, original := NO_PRIORITY, hold := 0, depth := 0, prio := prio)
  }

  // ----- exclusion -----

  ghost predicate Waiters(st: State) {
    NoDup(st.waiters) && forall t {:trigger t in st.waiters} ::
        t in st.waiters <==> t in st.phase && st.phase[t] == Waiting
  }

  /** Free: value 1, no owner, nothing held, nobody waiting. Held: value 0, the owner does not
      wait, and `hold` is the number of unmatched takes, as far as a byte can tell. A thread
      that was granted the mutex owns it. */
  ghost predicate Exclusive(st: State) {
    && (st.owner.Nobody? ==>
         st.value == 1 && st.hold == 0 && st.depth == 0 && st.waiters == [] && st.original == NO_PRIORITY)
    && (st.owner.Held? ==>
         st.value == 0 && st.owner.holder !in st.waiters && st.depth > 0 && st.hold == st.depth % HOLD_LIMIT)
    && (forall t {:trigger st.phase[t]} :: t in st.phase && st.phase[t] == Granted ==> st.owner == Held(t))
  }

  lemma StepWaiters(st: State, e: Event, flag: Flag)
    requires Enabled(st, e) && Waiters(st)
    ensures Waiters(Step(st, e, flag))
  {
    hide NoDup, Enqueue, Leave, Boost;
    match e
    case Take(t, wait) => EnqueueMembers(st.waiters, t, Boost(st.prio, st.owner, t), flag);
    case Release(t) => if st.waiters != [] { TailMembers(st.waiters); }
    case Expire(t) => LeaveMembers(st.waiters, t);
    case Return(t) =>
  }

  lemma StepExclusive(st: State, e: Event, flag: Flag)
    requires Enabled(st, e) && Waiters(st) && Exclusive(st)
    ensures Exclusive(Step(st, e, flag))
  {
    hide NoDup, Enqueue, Leave, Boost, Waiters;
    match e
    case Take(t, wait) =>
      WaitersFacts(st, t);
      EnqueueMembers(st.waiters, t, Boost(st.prio, st.owner, t), flag);
      Wraps(st.depth);
    case Release(t) =>
      Wraps(st.depth);
      HeadFacts(st);
    case Expire(t) =>
      WaitersFacts(st, t);
      LeaveFacts(st, t);
    case Return(t) =>
  }

  lemma WaitersFacts(st: State, t: Thread)
    requires Waiters(st)
    ensures t in st.waiters <==> t in st.phase && st.phase[t] == Waiting
    ensures NoDup(st.waiters)
  {
  }

  lemma HeadFacts(st: State)
    requires Waiters(st)
    ensures st.waiters != [] ==>
              var w := st.waiters[0];
              w in st.waiters && w !in st.waiters[1..] && w in st.phase && st.phase[w] == Waiting
              && forall z {:trigger z in st.waiters[1..]} :: z in st.waiters[1..] ==> z in st.waiters
  {
    hide NoDup;
    if st.waiters != [] { TailMembers(st.waiters); }
  }

  lemma LeaveFacts(st: State, t: Thread)
    requires Waiters(st)
    ensures forall z {:trigger z in Leave(st.waiters, t)} :: z in Leave(st.waiters, t) ==> z in st.waiters
  {
    LeaveMembers(st.waiters, t);
  }

  lemma Wraps(depth: nat)
    ensures (depth % HOLD_LIMIT + 1) % HOLD_LIMIT == (depth + 1) % HOLD_LIMIT
    ensures depth > 0 ==> (depth % HOLD_LIMIT + HOLD_LIMIT - 1) % HOLD_LIMIT == (depth - 1) % HOLD_LIMIT
  {
    assert depth == HOLD_LIMIT * (depth / HOLD_LIMIT) + depth % HOLD_LIMIT;
  }

  /** The mutex is given up by the release that matches the first take, and only by that one,
      exactly while nesting stays within what the byte can count. */
  lemma GivesUpExactly(st: State, t: Thread, flag: Flag)
    requires Waiters(st) && Exclusive(st) && st.owner == Held(t) && t !in st.phase
    ensures var st' := Step(st, Release(t), flag);
            (st'.owner != Held(t) <==> st.depth == 1) <==> !(st.depth > 1 && st.depth % HOLD_LIMIT == 1)
    ensures st.depth <= HOLD_LIMIT ==> !(st.depth > 1 && st.depth % HOLD_LIMIT == 1)
  {
    HeadFacts(st);
    hide Waiters;
  }

  function Takes(t: Thread, n: nat): seq<Event> {
    seq(n, _ => Take(t, true))
  }

  lemma {:induction false} NestedTakes(st: State, t: Thread, n: nat, flag: Flag)
    requires st.owner == Held(t) && t !in st.phase && st.hold < HOLD_LIMIT
    ensures Runnable(st, Takes(t, n), flag)
    ensures After(st, Takes(t, n), flag) == st.(hold := (st.hold + n) % HOLD_LIMIT, depth := st.depth + n)
    decreases n
  {
    hide Step, Enabled;
    if n > 0 {
      assert Takes(t, n)[1..] == Takes(t, n - 1);
      TakeAgain(st, t, flag);
      CountsOn(st.hold, n);
      NestedTakes(Step(st, Take(t, true), flag), t, n - 1, flag);
    }
  }

  lemma TakeAgain(st: State, t: Thread, flag: Flag)
    requires st.owner == Held(t) && t !in st.phase
    ensures Enabled(st, Take(t, true))
    ensures Step(st, Take(t, true), flag) == st.(hold := (st.hold + 1) % HOLD_LIMIT, depth := st.depth + 1)
  {
  }

  lemma CountsOn(hold: nat, n: nat)
    requires n > 0
    ensures ((hold + 1) % HOLD_LIMIT + (n - 1)) % HOLD_LIMIT == (hold + n) % HOLD_LIMIT
  {
    assert hold + n == HOLD_LIMIT * ((hold + 1) / HOLD_LIMIT) + ((hold + 1) % HOLD_LIMIT + (n - 1));
  }

  /** A thread that has taken the mutex 257 times gives it up with its first release. */
  lemma NestingOverflows(base: Priorities, t: Thread, flag: Flag)
    ensures Runnable(Start(base), Takes(t, HOLD_LIMIT + 1), flag)
    ensures var st := After(Start(base), Takes(t, HOLD_LIMIT + 1), flag);
            && st.owner == Held(t) && st.depth == HOLD_LIMIT + 1
            && Enabled(st, Release(t)) && Step(st, Release(t), flag).owner == Nobody
  {
    assert Takes(t, HOLD_LIMIT + 1)[1..] == Takes(t, HOLD_LIMIT);
    NestedTakes(Step(Start(base), Take(t, true), flag), t, HOLD_LIMIT, flag);
  }

  // ----- takes and releases, counted over a run -----

  function Releases(t: Thread, n: nat): seq<Event> {
    seq(n, _ => Release(t))
  }

  lemma {:induction false} NestedReleases(st: State, t: Thread, k: nat, flag: Flag)
    requires st.owner == Held(t) && t !in st.phase && st.hold == st.depth % HOLD_LIMIT && k < st.depth <= HOLD_LIMIT
    ensures Runnable(st, Releases(t, k), flag)
    ensures After(st, Releases(t, k), flag) == st.(hold := (st.depth - k) % HOLD_LIMIT, depth := st.depth - k)
    decreases k
  {
    hide Step, Enabled;
    if k > 0 {
      assert Releases(t, k)[1..] == Releases(t, k - 1);
      ReleaseOnce(st, t, flag);
      NestedReleases(Step(st, Release(t), flag), t, k - 1, flag);
    }
  }

  lemma ReleaseOnce(st: State, t: Thread, flag: Flag)
    requires st.owner == Held(t) && t !in st.phase && st.hold == st.depth % HOLD_LIMIT && 1 < st.depth <= HOLD_LIMIT
    ensures Enabled(st, Release(t))
    ensures Step(st, Release(t), flag) == st.(hold := (st.depth - 1) % HOLD_LIMIT, depth := st.depth - 1)
  {
    Wraps(st.depth);
  }

  lemma {:induction false} AfterBoth(st: State, es: seq<Event>, fs: seq<Event>, flag: Flag)
    requires Runnable(st, es, flag) && Runnable(After(st, es, flag), fs, flag)
    ensures Runnable(st, es + fs, flag) && After(st, es + fs, flag) == After(After(st, es, flag), fs, flag)
    decreases |es|
  {
    hide Step, Enabled;
    if es == [] {
      assert es + fs == fs;
    } else {
      AfterBoth(Step(st, es[0], flag), es[1..], fs, flag);
      assert (es + fs)[1..] == es[1..] + fs;
    }
  }

  /** Up to 256 takes of one thread need as many releases: after fewer the thread still owns the
      mutex, after as many it is free. */
  lemma TakesNeedReleases(base: Priorities, t: Thread, n: nat, k: nat, flag: Flag)
    requires 0 < n <= HOLD_LIMIT && k <= n
    ensures Runnable(Start(base), Takes(t, n) + Releases(t, k), flag)
    ensures var st := After(Start(base), Takes(t, n) + Releases(t, k), flag);
            if k < n then st.owner == Held(t) && st.hold == (n - k) % HOLD_LIMIT && st.value == 0
            else st.owner == Nobody && st.hold == 0 && st.value == 1
  {
    var st0 := Start(base);
    assert Takes(t, n)[1..] == Takes(t, n - 1);
    var st1 := Step(st0, Take(t, true), flag);
    NestedTakes(st1, t, n - 1, flag);
    var st2 := After(st0, Takes(t, n), flag);
    assert st2 == st1.(hold := n % HOLD_LIMIT, depth := n);
    if k < n {
      NestedReleases(st2, t, k, flag);
    } else {
      NestedReleases(st2, t, n - 1, flag);
      var st3 := After(st2, Releases(t, n - 1), flag);
      LastOne(st3, t, flag);
      AfterBoth(st2, Releases(t, n - 1), [Release(t)], flag);
      assert Releases(t, n) == Releases(t, n - 1) + [Release(t)];
    }
    AfterBoth(st0, Takes(t, n), Releases(t, k), flag);
  }

  lemma LastOne(st: State, t: Thread, flag: Flag)
    requires st.owner == Held(t) && t !in st.phase && st.hold == 1 && st.waiters == [] && st.value == 0
    ensures Runnable(st, [Release(t)], flag)
    ensures var r := After(st, [Release(t)], flag); r.owner == Nobody && r.hold == 0 && r.value == 1
  {
    assert After(st, [Release(t)], flag) == Step(st, Release(t), flag);
  }

  /** The owner's takes less its releases since it became the owner, counted along a run that
      starts at `n`. */
  function Tally(st: State, es: seq<Event>, flag: Flag, n: int): int
    requires Runnable(st, es, flag)
    decreases |es|
  {
    if es == [] then n
    else
      var st1 := Step(st, es[0], flag);
      var n1 :=
        if st1.owner != st.owner then (if st1.owner.Held? then 1 else 0)
        else if es[0].Take? && st.owner == Held(es[0].t) then n + 1
        else if es[0].Release? && st.owner == Held(es[0].t) then n - 1
        else n;
      Tally(st1, es[1..], flag, n1)
  }

  lemma StepTally(st: State, e: Event, flag: Flag)
    requires Enabled(st, e) && Waiters(st) && Exclusive(st)
    ensures Step(st, e, flag).depth == Tally(st, [e], flag, st.depth)
  {
    hide Enqueue, Leave, Boost, NoDup;
    HeadFacts(st);
    hide Waiters;
    var st1 := Step(st, e, flag);
    assert [e][1..] == [] && Tally(st1, [], flag, st1.depth) == st1.depth;
  }

  /** In every run `depth` is that count, so `hold` is the count as far as a byte can tell. */
  lemma {:induction false} DepthIsTally(st: State, es: seq<Event>, flag: Flag)
    requires Runnable(st, es, flag) && Waiters(st) && Exclusive(st)
    ensures After(st, es, flag).depth == Tally(st, es, flag, st.depth)
    decreases |es|
  {
    hide Waiters, Exclusive, Enabled, Step;
    if es != [] {
      StepTally(st, es[0], flag);
      StepWaiters(st, es[0], flag);
      StepExclusive(st, es[0], flag);
      DepthIsTally(Step(st, es[0], flag), es[1..], flag);
      assert [es[0]][1..] == [];
    }
  }

  lemma HoldIsTally(base: Priorities, es: seq<Event>, flag: Flag)
    requires Runnable(Start(base), es, flag)
    ensures var st, n := After(Start(base), es, flag), Tally(Start(base), es, flag, 0);
            st.hold == n % HOLD_LIMIT && (st.owner.Held? <==> n > 0) && n >= 0
  {
    StartInv(base);
    DepthIsTally(Start(base), es, flag);
    RunExcludes(Start(base), es, flag);
  }

  // ----- inheritance -----

  /** Only the owner's priority differs from its own, and only upwards; the mutex remembers
      what it was. */
  ghost predicate Restores(st: State, base: Priorities) {
    && (forall t {:trigger Prio(st.prio, t)} {:trigger Prio(base, t)} :: st.owner != Held(t) ==>
         Prio(st.prio, t) == Prio(base, t))
    && (st.owner.Held? ==> st.original == Prio(base, st.owner.holder) && Prio(st.prio, st.owner.holder) <= st.original)
  }

  /** The owner is at least as urgent as every waiter. */
  ghost predicate Inherits(st: State) {
    st.owner.Held? ==> forall t {:trigger t in st.waiters} :: t in st.waiters ==>
        Prio(st.prio, st.owner.holder) <= Prio(st.prio, t)
  }

  ghost predicate Inv(st: State, base: Priorities) {
    Waiters(st) && Exclusive(st) && Restores(st, base) && Sorted(st.waiters, st.prio) && Inherits(st)
  }

  lemma StepRestores(st: State, e: Event, flag: Flag, base: Priorities)
    requires Enabled(st, e) && Waiters(st) && Exclusive(st) && Restores(st, base)
    ensures Restores(Step(st, e, flag), base)
  {
    hide NoDup, Enqueue, Leave, Waiters;
    HeadFacts(st);
  }

  lemma SortedUnder(s: seq<Thread>, p: Priorities, q: Priorities)
    requires Sorted(s, p) && forall z {:trigger z in s} :: z in s ==> Prio(q, z) == Prio(p, z)
    ensures Sorted(s, q)
  {
    hide Prio;
    forall i, j | 0 <= i < j < |s| ensures Prio(q, s[i]) <= Prio(q, s[j]) {
      var a, b := s[i], s[j];
      assert a in s && b in s;
    }
  }

  lemma SortedTail(s: seq<Thread>, p: Priorities)
    requires Sorted(s, p) && s != []
    ensures Sorted(s[1..], p)
    ensures forall z {:trigger z in s[1..]} :: z in s[1..] ==> Prio(p, s[0]) <= Prio(p, z)
  {
  }

  lemma StepSorted(st: State, e: Event)
    requires Enabled(st, e) && Waiters(st) && Exclusive(st) && Sorted(st.waiters, st.prio)
    ensures Sorted(Step(st, e, PRIO).waiters, Step(st, e, PRIO).prio)
  {
    hide NoDup, Enqueue, Leave, Waiters, Sorted;
    match e
    case Take(t, wait) =>
      var prio := Boost(st.prio, st.owner, t);
      SortedUnder(st.waiters, st.prio, prio);
      EnqueueKeepsSorted(st.waiters, t, prio);
    case Release(t) =>
      if st.waiters != [] { SortedTail(st.waiters, st.prio); }
      HeadFacts(st);
      var st' := Step(st, e, PRIO);
      if st.owner == Held(t) { SortedUnder(st'.waiters, st.prio, st'.prio); }
    case Expire(t) => LeaveKeepsSorted(st.waiters, t, st.prio);
    case Return(t) =>
  }

  lemma StepInherits(st: State, e: Event)
    requires Enabled(st, e) && Waiters(st) && Exclusive(st) && Sorted(st.waiters, st.prio) && Inherits(st)
    ensures Inherits(Step(st, e, PRIO))
  {
    hide NoDup, Enqueue, Leave, Waiters, Sorted;
    match e
    case Take(t, wait) => EnqueueMembers(st.waiters, t, Boost(st.prio, st.owner, t), PRIO);
    case Release(t) =>
      HeadFacts(st);
      if st.waiters != [] { SortedTail(st.waiters, st.prio); }
    case Expire(t) => LeaveFacts(st, t);
    case Return(t) =>
  }

  /** With either flag, a hand-over keeps inheritance exactly when the first waiter is at least
      as urgent as the others: that the list is sorted is what makes it work. */
  lemma HandOverInherits(st: State, t: Thread, flag: Flag)
    requires Waiters(st) && Exclusive(st) && st.owner == Held(t) && t !in st.phase && st.hold == 1 && st.waiters != []
    ensures var st' := Step(st, Release(t), flag);
            st'.owner == Held(st.waiters[0])
            && (Inherits(st') <==> forall z {:trigger z in st.waiters[1..]} :: z in st.waiters[1..] ==>
                                     Prio(st.prio, st.waiters[0]) <= Prio(st.prio, z))
  {
    HeadFacts(st);
    hide Waiters, NoDup;
  }

  /** Some later waiter is more urgent than the first one. */
  ghost predicate Unsorted(st: State) {
    st.waiters != [] && exists z :: z in st.waiters[1..] && Prio(st.prio, z) < Prio(st.prio, st.waiters[0])
  }

  /** Over all steps, with either flag: the one that can lose inheritance is the release that
      gives the mutex up, and it does exactly when a later waiter is more urgent than the one
      it hands over to. */
  lemma InheritsExactly(st: State, e: Event, flag: Flag)
    requires Enabled(st, e) && Waiters(st) && Exclusive(st) && Inherits(st)
    ensures Inherits(Step(st, e, flag)) <==> !(LastRelease(st, e) && Unsorted(st))
  {
    hide Waiters, Exclusive, Inherits, Step;
    if LastRelease(st, e) { ReleaseInherits(st, e, flag); } else { OthersInherit(st, e, flag); }
  }

  predicate LastRelease(st: State, e: Event) {
    e.Release? && st.owner == Held(e.t) && st.hold == 1
  }

  lemma ReleaseInherits(st: State, e: Event, flag: Flag)
    requires Enabled(st, e) && Waiters(st) && Exclusive(st) && LastRelease(st, e)
    ensures Inherits(Step(st, e, flag)) <==> !Unsorted(st)
  {
    if st.waiters != [] {
      HandOverInherits(st, e.t, flag);
      hide Waiters, Exclusive, Inherits, Step;
    }
  }

  lemma OthersInherit(st: State, e: Event, flag: Flag)
    requires Enabled(st, e) && Waiters(st) && Exclusive(st) && Inherits(st) && !LastRelease(st, e)
    ensures Inherits(Step(st, e, flag))
  {
    WaitersFacts(st, e.t);
    hide Waiters, NoDup, Enqueue, Leave;
    match e
    case Take(t, wait) => EnqueueMembers(st.waiters, t, Boost(st.prio, st.owner, t), flag);
    case Expire(t) => LeaveFacts(st, t);
    case _ =>
  }

  /** A first-in first-out mutex can hand over to a thread less urgent than one that waits. */
  lemma FifoLosesInheritance()
    ensures var base: Priorities := map[0 := 10, 1 := 20, 2 := 5];
            var st0 := State(1, Nobody, 0, NO_PRIORITY, 0, [], map[], base);
            var st1 := Step(st0, Take(0, true), FIFO);
            var st2 := Step(st1, Take(1, true), FIFO);
            var st3 := Step(st2, Take(2, true), FIFO);
            var st4 := Step(st3, Release(0), FIFO);
            Inherits(st3) && st4.owner == Held(1) && !Inherits(st4)
  {
    hide Enqueue, Inherits;
    var base: Priorities := map[0 := 10, 1 := 20, 2 := 5];
    var st0 := State(1, Nobody, 0, NO_PRIORITY, 0, [], map[], base);
    var st1 := Step(st0, Take(0, true), FIFO);
    assert st1 == State(0, Held(0), 1, 10, 1, [], map[], base);
    EnqueueLast([], 1, base);
    var st2 := Step(st1, Take(1, true), FIFO);
    assert st2 == State(0, Held(0), 1, 10, 1, [1], map[1 := Waiting], base);
    EnqueueLast([1], 2, base[0 := 5]);
    var st3 := Step(st2, Take(2, true), FIFO);
    assert st3 == State(0, Held(0), 1, 10, 1, [1, 2], map[1 := Waiting, 2 := Waiting], base[0 := 5]);
    assert st3.prio[0 := 10] == base;
    var st4 := Step(st3, Release(0), FIFO);
    assert st4 == State(0, Held(1), 1, 20, 1, [2], map[1 := Granted, 2 := Waiting], base);
    LessUrgent(st3, st4);
  }

  lemma LessUrgent(st3: State, st4: State)
    requires st3.owner == Held(0) && Prio(st3.prio, 0) == 5 && st3.waiters == [1, 2]
    requires Prio(st3.prio, 1) == 20 && Prio(st3.prio, 2) == 5
    requires st4.owner == Held(1) && Prio(st4.prio, 1) == 20 && st4.waiters == [2] && Prio(st4.prio, 2) == 5
    ensures Inherits(st3) && !Inherits(st4)
  {
    assert 2 in st4.waiters;
  }

  // ----- runs -----

  lemma StepInv(st: State, e: Event, base: Priorities)
    requires Enabled(st, e) && Inv(st, base)
    ensures Inv(Step(st, e, PRIO), base)
  {
    StepWaiters(st, e, PRIO);
    StepExclusive(st, e, PRIO);
    StepRestores(st, e, PRIO, base);
    StepSorted(st, e);
    StepInherits(st, e);
    hide Step, Waiters, Exclusive, Restores, Sorted, Inherits;
  }

  predicate Runnable(st: State, es: seq<Event>, flag: Flag)
    decreases |es|
  {
    es == [] || (Enabled(st, es[0]) && Runnable(Step(st, es[0], flag), es[1..], flag))
  }

  function After(st: State, es: seq<Event>, flag: Flag): State
    requires Runnable(st, es, flag)
    decreases |es|
  {
    if es == [] then st else After(Step(st, es[0], flag), es[1..], flag)
  }

  function Start(base: Priorities): State {
    State(1, Nobody, 0, NO_PRIORITY, 0, [], map[], base)
  }

  /** In every reachable state of a priority mutex: it excludes, its waiters are sorted, its
      owner is as urgent as any of them, and everyone else has the priority it started with. */
  lemma {:induction false} RunInv(st: State, es: seq<Event>, base: Priorities)
    requires Runnable(st, es, PRIO) && Inv(st, base)
    ensures Inv(After(st, es, PRIO), base)
    decreases |es|
  {
    hide Inv, Enabled, Step;
    if es != [] {
      StepInv(st, es[0], base);
      RunInv(Step(st, es[0], PRIO), es[1..], base);
    }
  }

  lemma StartInv(base: Priorities)
    ensures Inv(Start(base), base)
  {
    EmptyNoDup();
  }

  /** So a run that leaves the mutex free leaves every priority as it was. */
  lemma FreeAgain(base: Priorities, es: seq<Event>, t: Thread)
    requires Runnable(Start(base), es, PRIO) && After(Start(base), es, PRIO).owner.Nobody?
    ensures Prio(After(Start(base), es, PRIO).prio, t) == Prio(base, t)
  {
    StartInv(base);
    RunInv(Start(base), es, base);
  }

  /** Exclusion alone does not need the priority flag. */
  lemma {:induction false} RunExcludes(st: State, es: seq<Event>, flag: Flag)
    requires Runnable(st, es, flag) && Waiters(st) && Exclusive(st)
    ensures Exclusive(After(st, es, flag)) && Waiters(After(st, es, flag))
    decreases |es|
  {
    hide Waiters, Exclusive, Enabled, Step;
    if es != [] {
      StepWaiters(st, es[0], flag);
      StepExclusive(st, es[0], flag);
      RunExcludes(Step(st, es[0], flag), es[1..], flag);
    }
  }

  // ----- the mutex in place -----

  /** The wait list's head node, which is no thread. */
  const LIST: int := -1

  /** A thread finds out from its error field why it was resumed. */
  ghost predicate Told(phase: map<Thread, Phase>, error: map<Thread, Error>) {
    forall t {:trigger phase[t]} :: t in phase ==>
      t in error && error[t] == if phase[t] == Failed then ETIMEOUT else EOK
  }

  lemma StepTold(st: State, e: Event, flag: Flag, error: map<Thread, Error>, error': map<Thread, Error>)
    requires Enabled(st, e) && Waiters(st) && Told(st.phase, error)
    requires forall t {:trigger error'[t]} {:trigger error[t]} :: t in error && (e.Return? || e.t != t) ==>
               t in error' && error'[t] == error[t]
    requires e.Take? && e.wait ==> e.t in error' && error'[e.t] == EOK
    requires e.Expire? ==> e.t in error' && error'[e.t] == ETIMEOUT
    ensures Told(Step(st, e, flag).phase, error')
  {
    HeadFacts(st);
    hide Waiters, Enqueue, Leave;
  }

  class Lock {
    const flag: Flag
    const suspendThread: Links
    var value: nat
    var owner: Owner
    var hold: nat
    var originalPriority: nat
    /** current_priority of every thread. */
    var priority: Priorities
    /** The error fields of the threads. */
    var error: map<Thread, Error>
    /** The state the mutex and the threads are in. */
    ghost var st: State

    ghost predicate Valid()
      reads this, suspendThread
    {
      && suspendThread.Holds(LIST, st.waiters) && value == st.value && owner == st.owner && hold == st.hold
      && originalPriority == st.original && priority == st.prio && LIST !in st.phase
      && Told(st.phase, error)
      && Waiters(st) && Exclusive(st)
    }

    /** rt_mutex_init. */
    constructor (flag: Flag, priority: Priorities)
      ensures Valid() && this.flag == flag && fresh(suspendThread) && st == Start(priority)
    {
      this.flag := flag;
      var l := new Links();
      l.Init(LIST);
      suspendThread := l;
      value, owner, hold, originalPriority, this.priority := 1, Nobody, 0, NO_PRIORITY, priority;
      error, st := map[], Start(priority);
      StartInv(priority);
    }

    /** rt_mutex_take up to the point where the thread returns or is suspended. */
    method TakeMutex(t: Thread, wait: bool) returns (taken: bool)
      requires Valid() && Enabled(st, Take(t, wait)) && t != LIST
      modifies this, suspendThread
      ensures st == Step(old(st), Take(t, wait), flag)
      ensures taken <==> old(st).owner == Held(t) || old(st).owner.Nobody?
      ensures taken ==>
                owner == Held(t) && priority == old(priority) && st.waiters == old(st).waiters
                  && st.phase == old(st).phase
                && (old(owner) == Held(t) ==>
                     hold == (old(hold) + 1) % HOLD_LIMIT && value == old(value)
                       && originalPriority == old(originalPriority))
                && (old(owner) == Nobody ==>
                     hold == 1 && value == 0 && originalPriority == Prio(old(priority), t))
      ensures !taken && wait ==>
                owner == old(owner) && hold == old(hold) && value == old(value) && owner.Held?
                && priority == (if Prio(old(priority), t) < Prio(old(priority), owner.holder)
                                then old(priority)[owner.holder := Prio(old(priority), t)] else old(priority))
                && st.waiters == Enqueue(old(st).waiters, t, priority, flag) && st.phase == old(st).phase[t := Waiting]
      ensures !taken && !wait ==> st == old(st) && t in error && error[t] == ETIMEOUT
      ensures Valid()
    {
      hide NoDup, Enqueue, Waiters, Exclusive, Ring, Told;
      ghost var st0, e := st, Take(t, wait);
      StepWaiters(st, e, flag);
      StepExclusive(st, e, flag);
      WaitersFacts(st, t);
      ValueTells(st);
      StepTold(st, e, flag, error, error[t := EOK]);
      error := error[t := EOK];
      taken := false;
      if owner == Held(t) {
        hold := (hold + 1) % HOLD_LIMIT;
        taken := true;
      } else if value > 0 {
        value := value - 1;
        owner := Held(t);
        originalPriority := Prio(priority, t);
        hold := (hold + 1) % HOLD_LIMIT;
        taken := true;
      } else if wait {
        if Prio(priority, t) < Prio(priority, owner.holder) {
          priority := priority[owner.holder := Prio(priority, t)];
        }
        Suspend(suspendThread, LIST, t, priority, flag, st.waiters);
      } else {
        StepTold(st, e, flag, error, error[t := ETIMEOUT]);
        error := error[t := ETIMEOUT];
      }
      st := Step(st0, e, flag);
    }

    /** rt_mutex_release. */
    method ReleaseMutex(t: Thread) returns (ok: bool)
      requires Valid() && Enabled(st, Release(t)) && t != LIST
      modifies this, suspendThread
      ensures st == Step(old(st), Release(t), flag)
      ensures ok <==> old(st).owner == Held(t)
      ensures !ok ==> st == old(st) && t in error && error[t] == ERROR
      ensures ok && old(hold) != 1 ==>
                hold == (if old(hold) == 0 then HOLD_LIMIT else old(hold)) - 1 && owner == old(owner)
                && value == old(value) && priority == old(priority) && originalPriority == old(originalPriority)
                && st.waiters == old(st).waiters && st.phase == old(st).phase
      ensures ok && old(hold) == 1 ==>
                && Prio(priority, t) == old(originalPriority)
                && (forall u {:trigger Prio(priority, u)} :: u != t ==> Prio(priority, u) == Prio(old(priority), u))
                && if old(st).waiters == [] then owner == Nobody && value == 1 && hold == 0 && st.phase == old(st).phase
                   else var w := old(st).waiters[0];
                     owner == Held(w) && value == 0 && hold == 1 && originalPriority == Prio(priority, w)
                     && st.waiters == old(st).waiters[1..] && st.phase == old(st).phase[w := Granted]
      ensures Valid()
    {
      GivesUp(st, t);
      hide NoDup, Waiters, Exclusive, Ring, Told, GiveUp;
      ghost var st0, e := st, Release(t);
      StepTold(st, e, flag, error, error);
      StepTold(st, e, flag, error, error[t := ERROR]);
      StepWaiters(st, e, flag);
      StepExclusive(st, e, flag);
      HeadFacts(st);
      ValueTells(st);
      if owner != Held(t) {
        error := error[t := ERROR];
        return false;
      }
      ok := true;
      hold := (hold + HOLD_LIMIT - 1) % HOLD_LIMIT;
      if hold == 0 {
        SameThreads(st, t);
        PassOn(t);
      }
      st := Step(st0, e, flag);
    }

    /** The owner holds nothing any more: restore its priority, hand over or free. */
    method PassOn(t: Thread)
      requires suspendThread.Holds(LIST, st.waiters) && owner == Held(t) && hold == 0
      requires value == st.value && originalPriority == st.original && priority == st.prio
      modifies `value, `owner, `hold, `originalPriority, `priority, suspendThread
      ensures var r := GiveUp(st, t);
              && suspendThread.Holds(LIST, r.waiters) && value == r.value && owner == r.owner
              && hold == r.hold && originalPriority == r.original && priority == r.prio
    {
      hide Ring;
      if originalPriority != Prio(priority, t) { priority := priority[t := originalPriority]; }
      var empty := suspendThread.IsEmpty(LIST, st.waiters);
      if !empty {
        ChainHead(suspendThread.next, suspendThread.prev, st.waiters);
        var thread := suspendThread.next[LIST];
        owner := Held(thread);
        originalPriority := Prio(priority, thread);
        hold := (hold + 1) % HOLD_LIMIT;
        var resumed := ResumeFirst(suspendThread, LIST, st.waiters);
      } else {
        value := value + 1;
        owner := Nobody;
        originalPriority := NO_PRIORITY;
      }
    }

    /** The end of rt_mutex_take for a thread that was resumed: either it owns the mutex, or
        its timer expired. */
    method Resumed(t: Thread) returns (e: Error)
      requires Valid() && Enabled(st, Return(t))
      modifies `st
      ensures st == Step(old(st), Return(t), flag) && st == old(st).(phase := old(st).phase - {t})
      ensures e == (if old(st).phase[t] == Failed then ETIMEOUT else EOK)
      ensures e == EOK ==> owner == Held(t)
      ensures Valid()
    {
      hide NoDup, Ring, Waiters;
      StepWaiters(st, Return(t), flag);
      StepExclusive(st, Return(t), flag);
      e := error[t];
      st := Step(st, Return(t), flag);
    }

    /** The timer of a suspended thread expires: it leaves the wait list. */
    method Timeout(t: Thread)
      requires Valid() && Enabled(st, Expire(t))
      modifies `error, `st, suspendThread
      ensures st == Step(old(st), Expire(t), flag)
      ensures st.phase == old(st).phase[t := Failed] && t !in st.waiters
      ensures Valid()
    {
      hide NoDup, Exclusive, Ring, Waiters, Leave, Without;
      StepWaiters(st, Expire(t), flag);
      StepExclusive(st, Expire(t), flag);
      WaitersFacts(st, t);
      LeaveMembers(st.waiters, t);
      error := error[t := ETIMEOUT];
      Withdraw(suspendThread, t, LIST, st.waiters);
      st := Step(st, Expire(t), flag);
    }
  }

  /** What giving up does to each field. */
  lemma GivesUp(st: State, t: Thread)
    requires Exclusive(st)
    ensures st.owner == Held(t) ==> st.hold < HOLD_LIMIT && st.value == 0
    ensures var r := GiveUp(st, t);
            && Prio(r.prio, t) == st.original
            && (forall u {:trigger Prio(r.prio, u)} :: u != t ==> Prio(r.prio, u) == Prio(st.prio, u))
            && if st.waiters == [] then
                 r.owner == Nobody && r.value == st.value + 1 && r.hold == 0 && r.phase == st.phase
               else r.owner == Held(st.waiters[0]) && r.value == st.value && r.hold == 1
                    && r.original == Prio(r.prio, st.waiters[0])
                    && r.waiters == st.waiters[1..] && r.phase == st.phase[st.waiters[0] := Granted]
  {
  }

  lemma SameThreads(st: State, t: Thread)
    requires Waiters(st)
    ensures GiveUp(st, t).phase.Keys == st.phase.Keys
  {
    HeadFacts(st);
    hide Waiters;
  }

  lemma ChainHead(next: LinkMap, prev: LinkMap, s: seq<Thread>)
    requires Ring(next, prev, LIST, s) && s != []
    ensures LIST in next && next[LIST] == s[0]
  {
  }

  /** What the fields say about each other. */
  lemma ValueTells(st: State)
    requires Exclusive(st)
    ensures st.value > 0 <==> st.owner.Nobody?
    ensures st.hold < HOLD_LIMIT && (st.owner.Nobody? ==> st.value == 1 && st.hold == 0)
  {
  }
}
