/** The kernel's message queue. Every interrupt-disabled region is one step; between its steps
    a sender or a receiver holds a slot that is on neither list, and copies. */
module MessageQueue {
  import opened RingList
  import opened SingleList
  import opened WaitList

  type Message = seq<bv8>

  datatype Config = Config(max: nat, msgSize: nat, flag: Flag, prio: Priorities)

  /** Where a thread is between two regions; a thread that is in none of these is not
      using the queue. */
  datatype Phase =
    | Filling(slot: int)
    | Filled(slot: int, urgent: bool)
    | Draining(slot: int)
    | Waiting
    | Woken
    | Failed(error: Error)

  datatype State = State(
    free: seq<int>, queue: seq<int>, data: map<int, Message>,
    waiters: seq<Thread>, phase: map<Thread, Phase>)

  datatype Event =
    | Reserve(t: Thread)
    | Fill(t: Thread, buffer: Message, urgent: bool)
    | Link(t: Thread)
    | Receive(t: Thread, wait: bool)
    | Release(t: Thread)
    | Expire(t: Thread)
    | Fail(t: Thread)
    | Reset

  // ----- the steps -----

  predicate HasSlot(p: Phase) {
    p.Filling? || p.Filled? || p.Draining?
  }

  predicate Enabled(c: Config, st: State, e: Event) {
    match e
    case Reserve(t) => t !in st.phase
    case Fill(t, buffer, urgent) =>
      t in st.phase && st.phase[t].Filling? && st.phase[t].slot in st.data && 0 < |buffer| <= c.msgSize
    case Link(t) => t in st.phase && st.phase[t].Filled?
    case Receive(t, wait) => t !in st.phase || st.phase[t] == Woken
    case Release(t) => t in st.phase && st.phase[t].Draining?
    case Expire(t) => t in st.phase && st.phase[t] == Waiting
    case Fail(t) => t in st.phase && st.phase[t].Failed?
    case Reset => true
  }

  /** Copying fewer bytes than the slot has leaves the rest of the slot as it was. */
  function Overlay(old_: Message, buffer: Message): Message {
    if |buffer| <= |old_| then buffer + old_[|buffer|..] else buffer
  }

  /** rt_ipc_list_resume of the first waiter, if there is one. */
  function Resume(st: State): State {
    if st.waiters == [] then st
    else st.(waiters := st.waiters[1..], phase := st.phase[st.waiters[0] := Woken])
  }

  function Reversed(s: seq<int>): seq<int> {
    if s == [] then [] else Reversed(s[1..]) + [s[0]]
  }

  function Step(c: Config, st: State, e: Event): State
    requires Enabled(c, st, e)
  {
    match e
    case Reserve(t) =>
      if st.free == [] then st else st.(free := st.free[1..], phase := st.phase[t := Filling(st.free[0])])
    case Fill(t, buffer, urgent) =>
      var s := st.phase[t].slot;
      st.(data := st.data[s := Overlay(st.data[s], buffer)], phase := st.phase[t := Filled(s, urgent)])
    case Link(t) =>
      var s := st.phase[t].slot;
      Resume(st.(queue := if st.phase[t].urgent then [s] + st.queue else st.queue + [s], phase := st.phase - {t}))
    case Receive(t, wait) =>
      if st.queue != [] then st.(queue := st.queue[1..], phase := st.phase[t := Draining(st.queue[0])])
      else if wait then st.(waiters := Enqueue(st.waiters, t, c.prio, c.flag), phase := st.phase[t := Waiting])
      else st.(phase := st.phase - {t})
    case Release(t) => st.(free := [st.phase[t].slot] + st.free, phase := st.phase - {t})
    case Expire(t) => st.(waiters := Leave(st.waiters, t), phase := st.phase[t := Failed(ETIMEOUT)])
    case Fail(t) => st.(phase := st.phase - {t})
    case Reset =>
      st.(free := Reversed(st.queue) + st.free, queue := [], waiters := [],
          phase := FailAll(st.phase, st.waiters, Failed(ERROR)))
  }

  // ----- slots are conserved -----

  predicate Holds(st: State, t: Thread, s: int) {
    t in st.phase && HasSlot(st.phase[t]) && st.phase[t].slot == s
  }

  ghost predicate Listed(c: Config, st: State) {
    && NoDup(st.free) && NoDup(st.queue)
    && (forall s {:trigger s in st.free} :: s in st.free ==> 0 <= s < c.max && s !in st.queue)
    && (forall s {:trigger s in st.queue} :: s in st.queue ==> 0 <= s < c.max)
  }

  ghost predicate HeldApart(c: Config, st: State) {
    forall t, s {:trigger Holds(st, t, s)} :: Holds(st, t, s) ==> 0 <= s < c.max && s !in st.free && s !in st.queue
  }

  ghost predicate HeldOnce(st: State) {
    forall t, u, s {:trigger Holds(st, t, s), Holds(st, u, s)} :: Holds(st, t, s) && Holds(st, u, s) ==> t == u
  }

  ghost predicate NoneLost(c: Config, st: State) {
    forall s :: 0 <= s < c.max ==> s in st.free || s in st.queue || exists t :: Holds(st, t, s)
  }

  /** Every slot of the pool is in exactly one place: on the free list, in the queue, or held
      by exactly one thread. */
  ghost predicate Conserved(c: Config, st: State) {
    Listed(c, st) && HeldApart(c, st) && HeldOnce(st) && NoneLost(c, st)
  }

  lemma {:induction false} ReversedMembers(s: seq<int>)
    requires NoDup(s)
    ensures NoDup(Reversed(s)) && |Reversed(s)| == |s|
    ensures forall z {:trigger z in Reversed(s)} {:trigger z in s} :: z in Reversed(s) <==> z in s
    decreases |s|
  {
    if s != [] {
      ReversedMembers(s[1..]);
      var r := Reversed(s[1..]);
      InsertNoDup(r, |r|, s[0]);
      assert Insert(r, |r|, s[0]) == Reversed(s);
      assert forall z {:trigger z in s} {:trigger z in s[1..]} :: z in s <==> z == s[0] || z in s[1..];
    }
  }

  lemma {:induction false} ConcatNoDup(a: seq<int>, b: seq<int>)
    requires NoDup(a) && NoDup(b) && forall z {:trigger z in a} :: z in a ==> z !in b
    ensures NoDup(a + b)
    decreases |a|
  {
    if a == [] {
      assert a + b == b;
    } else {
      assert forall z {:trigger z in a[1..]} :: z in a[1..] ==> z in a;
      ConcatNoDup(a[1..], b);
      var x := a[0];
      assert x in a;
      assert (a + b)[1..] == a[1..] + b;
    }
  }

  lemma StepListed(c: Config, st: State, e: Event)
    requires Enabled(c, st, e) && Listed(c, st) && HeldApart(c, st)
    ensures Listed(c, Step(c, st, e))
  {
    hide NoDup, Listed, HeldApart;
    match e
    case Link(t) => LinkListed(c, st, e);
    case Release(t) => ReleaseListed(c, st, e);
    case Reset => ResetListed(c, st);
    case Reserve(t) => ShorterListed(c, st, e);
    case Receive(t, wait) => ShorterListed(c, st, e);
    case _ => SameListed(c, st, e);
  }

  lemma SameListed(c: Config, st: State, e: Event)
    requires Enabled(c, st, e) && Listed(c, st) && (e.Fill? || e.Expire? || e.Fail?)
    ensures Listed(c, Step(c, st, e))
  {
    hide NoDup;
  }

  lemma ShorterListed(c: Config, st: State, e: Event)
    requires Enabled(c, st, e) && Listed(c, st) && (e.Reserve? || e.Receive?)
    ensures Listed(c, Step(c, st, e))
  {
    hide NoDup;
    if e.Reserve? && st.free != [] { TailMembers(st.free); }
    if e.Receive? && st.queue != [] { TailMembers(st.queue); }
  }

  lemma LinkListed(c: Config, st: State, e: Event)
    requires Enabled(c, st, e) && Listed(c, st) && HeldApart(c, st) && e.Link?
    ensures Listed(c, Step(c, st, e))
  {
    hide NoDup;
    var s := st.phase[e.t].slot;
    assert Holds(st, e.t, s);
    InsertNoDup(st.queue, if st.phase[e.t].urgent then 0 else |st.queue|, s);
    assert Insert(st.queue, 0, s) == [s] + st.queue && Insert(st.queue, |st.queue|, s) == st.queue + [s];
  }

  lemma ReleaseListed(c: Config, st: State, e: Event)
    requires Enabled(c, st, e) && Listed(c, st) && HeldApart(c, st) && e.Release?
    ensures Listed(c, Step(c, st, e))
  {
    hide NoDup;
    var s := st.phase[e.t].slot;
    assert Holds(st, e.t, s);
    InsertNoDup(st.free, 0, s);
    assert Insert(st.free, 0, s) == [s] + st.free;
  }

  lemma ResetListed(c: Config, st: State)
    requires Listed(c, st)
    ensures Listed(c, Step(c, st, Reset))
  {
    hide NoDup;
    ReversedMembers(st.queue);
    ConcatNoDup(Reversed(st.queue), st.free);
    EmptyNoDup();
  }

  lemma StepHeldApart(c: Config, st: State, e: Event)
    requires Enabled(c, st, e) && Listed(c, st) && HeldApart(c, st) && HeldOnce(st)
    ensures HeldApart(c, Step(c, st, e))
  {
    var st' := Step(c, st, e);
    if e == Reset { ReversedMembers(st.queue); }
    forall t, s {:trigger Holds(st', t, s)} | Holds(st', t, s)
      ensures 0 <= s < c.max && s !in st'.free && s !in st'.queue
    {
      if Holds(st, t, s) {
        if e.Link? || e.Release? { assert Holds(st, e.t, st.phase[e.t].slot); }
      } else {
        assert s in st.free || s in st.queue;
      }
    }
  }

  lemma StepHeldOnce(c: Config, st: State, e: Event)
    requires Enabled(c, st, e) && Listed(c, st) && HeldApart(c, st) && HeldOnce(st)
    ensures HeldOnce(Step(c, st, e))
  {
    var st' := Step(c, st, e);
    forall t, u, s {:trigger Holds(st', t, s), Holds(st', u, s)} | Holds(st', t, s) && Holds(st', u, s) ensures t == u {
      assert Holds(st, t, s) || s in st.free || s in st.queue;
      assert Holds(st, u, s) || s in st.free || s in st.queue;
    }
  }

  lemma StepNoneLost(c: Config, st: State, e: Event)
    requires Enabled(c, st, e) && NoneLost(c, st) && NoDup(st.queue)
    requires Waiters(st)
    ensures NoneLost(c, Step(c, st, e))
  {
    var st' := Step(c, st, e);
    if st.waiters != [] { assert st.waiters[0] in st.waiters; }
    forall s | 0 <= s < c.max ensures s in st'.free || s in st'.queue || exists t :: Holds(st', t, s) {
      if s in st.free {
        if e.Reserve? && s == st.free[0] { assert Holds(st', e.t, s); }
      } else if s in st.queue {
        if e.Receive? && s == st.queue[0] { assert Holds(st', e.t, s); }
        if e == Reset { ReversedMembers(st.queue); }
      } else {
        var t :| Holds(st, t, s);
        assert t !in st.waiters;
        if !((e.Link? || e.Release?) && e.t == t) { assert Holds(st', t, s); }
      }
    }
  }

  // ----- waiters, and no lost wakeup -----

  ghost predicate Waiters(st: State) {
    && NoDup(st.waiters)
    && forall t {:trigger t in st.waiters} :: t in st.waiters <==> t in st.phase && st.phase[t] == Waiting
  }

  predicate IsWoken(p: Phase) {
    p.Woken?
  }

  /** While a receiver is suspended, every queued message has a receiver that was resumed for
      it and has not run yet. */
  ghost predicate NoLostWakeup(st: State) {
    st.waiters != [] ==> |st.queue| <= |In(st.phase, IsWoken)|
  }

  lemma StepWaiters(c: Config, st: State, e: Event)
    requires Enabled(c, st, e) && Waiters(st)
    ensures Waiters(Step(c, st, e))
  {
    hide Waiters;
    match e
    case Link(t) => LinkWaiters(c, st, e);
    case Receive(t, wait) => ReceiveWaiters(c, st, e);
    case _ => OtherWaiters(c, st, e);
  }

  lemma LinkWaiters(c: Config, st: State, e: Event)
    requires Enabled(c, st, e) && Waiters(st) && e.Link?
    ensures Waiters(Step(c, st, e))
  {
    hide NoDup;
    if st.waiters != [] { TailMembers(st.waiters); }
  }

  lemma ReceiveWaiters(c: Config, st: State, e: Event)
    requires Enabled(c, st, e) && Waiters(st) && e.Receive?
    ensures Waiters(Step(c, st, e))
  {
    hide NoDup, Enqueue;
    EnqueueMembers(st.waiters, e.t, c.prio, c.flag);
  }

  lemma OtherWaiters(c: Config, st: State, e: Event)
    requires Enabled(c, st, e) && Waiters(st) && !e.Link? && !e.Receive?
    ensures Waiters(Step(c, st, e))
  {
    hide NoDup, Leave;
    EmptyNoDup();
    if e.Expire? { LeaveMembers(st.waiters, e.t); }
  }

  lemma InReplaced(phase: map<Thread, Phase>, t: Thread, v: Phase)
    requires v != Woken
    ensures In(phase[t := v], IsWoken) == In(phase - {t}, IsWoken)
  {
  }

  lemma StepNoLostWakeup(c: Config, st: State, e: Event)
    requires Enabled(c, st, e) && Waiters(st) && NoLostWakeup(st)
    ensures NoLostWakeup(Step(c, st, e))
  {
    hide NoDup, Enqueue, In;
    match e
    case Link(t) =>
      InWithout(st.phase, t, IsWoken);
      if st.waiters != [] {
        var w := st.waiters[0];
        assert w in st.waiters;
        InWith(st.phase - {t}, w, Woken, IsWoken);
      }
    case Receive(t, wait) =>
      InWithout(st.phase, t, IsWoken);
      InReplaced(st.phase, t, Waiting);
      if st.queue != [] { InReplaced(st.phase, t, Draining(st.queue[0])); }
    case Reserve(t) => if st.free != [] { InWith(st.phase, t, Filling(st.free[0]), IsWoken); }
    case Fill(t, buffer, urgent) => InWith(st.phase, t, Filled(st.phase[t].slot, urgent), IsWoken);
    case Expire(t) =>
      assert t in st.waiters;
      InWith(st.phase, t, Failed(ETIMEOUT), IsWoken);
    case Reset =>
    case _ => InWithout(st.phase, e.t, IsWoken);
  }

  // ----- order -----

  ghost predicate Stored(c: Config, st: State) {
    forall s {:trigger st.data[s]} {:trigger s in st.data} :: 0 <= s < c.max ==>
        s in st.data && |st.data[s]| == c.msgSize
  }

  function Read(data: map<int, Message>, q: seq<int>): seq<Message> {
    if q == [] then [] else [if q[0] in data then data[q[0]] else []] + Read(data, q[1..])
  }

  /** The queued messages, oldest first. */
  function Contents(st: State): seq<Message> {
    Read(st.data, st.queue)
  }

  predicate Urgent(st: State, e: Event) {
    e.Link? && e.t in st.phase && st.phase[e.t].Filled? && st.phase[e.t].urgent
  }

  /** What each step does to a double-ended queue of messages. */
  function Flow(q: seq<Message>, st: State, e: Event): seq<Message> {
    match e
    case Link(t) =>
      var slot := if t in st.phase && HasSlot(st.phase[t]) then st.phase[t].slot else NULL;
      var m := if slot in st.data then st.data[slot] else [];
      if Urgent(st, e) then [m] + q else q + [m]
    case Receive(t, wait) => if q == [] then q else q[1..]
    case Reset => []
    case _ => q
  }

  lemma {:induction false} ReadKept(data: map<int, Message>, data': map<int, Message>, q: seq<int>)
    requires forall s {:trigger s in q} :: s in q ==> (s in data <==> s in data') && (s in data ==> data'[s] == data[s])
    ensures Read(data', q) == Read(data, q)
    decreases |q|
  {
    if q != [] {
      var x := q[0];
      assert x in q && forall s {:trigger s in q[1..]} :: s in q[1..] ==> s in q;
      ReadKept(data, data', q[1..]);
    }
  }

  lemma {:induction false} ReadConcat(data: map<int, Message>, q: seq<int>, r: seq<int>)
    ensures Read(data, q + r) == Read(data, q) + Read(data, r) && |Read(data, q)| == |q|
    decreases |q|
  {
    if q == [] {
      assert q + r == r;
    } else {
      ReadConcat(data, q[1..], r);
      assert (q + r)[1..] == q[1..] + r;
    }
  }

  /** The queue is a double-ended queue of messages: sends append, urgent sends go in front,
      receives take the oldest, and no copying thread disturbs it. */
  lemma StepFlows(c: Config, st: State, e: Event)
    requires Enabled(c, st, e) && Conserved(c, st) && Stored(c, st)
    ensures Contents(Step(c, st, e)) == Flow(Contents(st), st, e)
    ensures e.Receive? && st.queue != [] ==>
              var st' := Step(c, st, e);
              && st'.phase[e.t] == Draining(st.queue[0]) && st.queue[0] in st'.data
              && Contents(st) == [st'.data[st.queue[0]]] + Contents(st')
  {
    ReadConcat(st.data, st.queue, []);
    match e
    case Fill(t, buffer, urgent) =>
      assert Holds(st, t, st.phase[t].slot);
      ReadKept(st.data, Step(c, st, e).data, st.queue);
    case Link(t) =>
      var s := st.phase[t].slot;
      assert Holds(st, t, s);
      ReadConcat(st.data, [s], st.queue);
      ReadConcat(st.data, st.queue, [s]);
      assert Read(st.data, [s]) == [st.data[s]];
    case Receive(t, wait) =>
      if st.queue != [] { assert st.queue[0] in st.queue; }
    case _ =>
  }

  /** What a thread holds between its regions stays as it left it, whatever others do: a
      sender's message until it is linked, a received message until it is copied out. */
  lemma OthersKeepHeld(c: Config, st: State, e: Event, t: Thread, s: int)
    requires Enabled(c, st, e) && HeldOnce(st) && Waiters(st) && Holds(st, t, s) && (e == Reset || e.t != t)
    ensures var st' := Step(c, st, e);
            && t in st'.phase && st'.phase[t] == st.phase[t]
            && (s in st.data ==> s in st'.data && st'.data[s] == st.data[s])
  {
    assert t !in st.waiters;
    if st.waiters != [] { assert st.waiters[0] in st.waiters; }
    if e.Fill? { assert Holds(st, e.t, st.phase[e.t].slot); }
  }

  // ----- runs -----

  ghost predicate Inv(c: Config, st: State) {
    Conserved(c, st) && Stored(c, st) && Waiters(st) && NoLostWakeup(st)
  }

  lemma StepInv(c: Config, st: State, e: Event)
    requires Enabled(c, st, e) && Inv(c, st)
    ensures Inv(c, Step(c, st, e))
  {
    StepListed(c, st, e);
    StepHeldApart(c, st, e);
    StepHeldOnce(c, st, e);
    StepNoneLost(c, st, e);
    StepWaiters(c, st, e);
    StepNoLostWakeup(c, st, e);
    StepStored(c, st, e);
    hide Step, Listed, HeldApart, HeldOnce, NoneLost, Stored, Waiters, NoLostWakeup;
  }

  lemma StepStored(c: Config, st: State, e: Event)
    requires Enabled(c, st, e) && Stored(c, st) && HeldApart(c, st)
    ensures Stored(c, Step(c, st, e))
  {
    if e.Fill? { assert Holds(st, e.t, st.phase[e.t].slot); }
  }

  predicate Runnable(c: Config, st: State, es: seq<Event>)
    decreases |es|
  {
    es == [] || (Enabled(c, st, es[0]) && Runnable(c, Step(c, st, es[0]), es[1..]))
  }

  function After(c: Config, st: State, es: seq<Event>): State
    requires Runnable(c, st, es)
    decreases |es|
  {
    if es == [] then st else After(c, Step(c, st, es[0]), es[1..])
  }

  /** What a run does to a double-ended queue of messages. */
  function Flows(c: Config, st: State, es: seq<Event>, q: seq<Message>): seq<Message>
    requires Runnable(c, st, es)
    decreases |es|
  {
    if es == [] then q else Flows(c, Step(c, st, es[0]), es[1..], Flow(q, st, es[0]))
  }

  /** In every state of every interleaving the slots are conserved, no wakeup is lost, and the
      queue is what the run makes of a double-ended queue: messages in the order they were
      sent, urgent ones pushed at the front, nothing kept across a reset. */
  lemma {:induction false} RunInv(c: Config, st: State, es: seq<Event>)
    requires Runnable(c, st, es) && Inv(c, st)
    ensures Inv(c, After(c, st, es)) && Contents(After(c, st, es)) == Flows(c, st, es, Contents(st))
    decreases |es|
  {
    hide Enabled, Step, Contents, Flow, Conserved, Stored, Waiters, NoLostWakeup;
    if es != [] {
      StepInv(c, st, es[0]);
      StepFlows(c, st, es[0]);
      RunInv(c, Step(c, st, es[0]), es[1..]);
    }
  }

  /** The message a step links into the queue, or takes from it. */
  function LinkedBy(st: State, e: Event): seq<Message> {
    if e.Link? then Flow([], st, e) else []
  }

  function TakenBy(st: State, e: Event): seq<Message> {
    var q := Contents(st);
    if e.Receive? && q != [] then [q[0]] else []
  }

  /** The messages linked, and those taken, over a run. */
  function Sent(c: Config, st: State, es: seq<Event>): seq<Message>
    requires Runnable(c, st, es)
    decreases |es|
  {
    if es == [] then [] else LinkedBy(st, es[0]) + Sent(c, Step(c, st, es[0]), es[1..])
  }

  function Received(c: Config, st: State, es: seq<Event>): seq<Message>
    requires Runnable(c, st, es)
    decreases |es|
  {
    if es == [] then [] else TakenBy(st, es[0]) + Received(c, Step(c, st, es[0]), es[1..])
  }

  lemma FifoStep(c: Config, st: State, e: Event)
    requires Enabled(c, st, e) && Inv(c, st) && e != Reset && !Urgent(st, e)
    ensures Contents(st) + LinkedBy(st, e) == TakenBy(st, e) + Contents(Step(c, st, e))
  {
    StepFlows(c, st, e);
    hide Step, Contents;
  }

  lemma StaysNormal(c: Config, st: State, e: Event)
    requires Enabled(c, st, e) && !(e.Fill? && e.urgent)
    requires forall t {:trigger st.phase[t]} :: t in st.phase && st.phase[t].Filled? ==> !st.phase[t].urgent
    ensures !Urgent(st, e)
    ensures var st' := Step(c, st, e);
            forall t {:trigger st'.phase[t]} :: t in st'.phase && st'.phase[t].Filled? ==> !st'.phase[t].urgent
  {
  }

  /** First in, first out, for any number of interleaved senders and receivers: between resets
      and without urgent messages, what was received is a prefix of what was sent. */
  lemma {:induction false} Fifo(c: Config, st: State, es: seq<Event>)
    requires Runnable(c, st, es) && Inv(c, st)
    requires forall i {:trigger es[i]} :: 0 <= i < |es| ==> es[i] != Reset && !(es[i].Fill? && es[i].urgent)
    requires forall t {:trigger st.phase[t]} :: t in st.phase && st.phase[t].Filled? ==> !st.phase[t].urgent
    ensures Contents(st) + Sent(c, st, es) == Received(c, st, es) + Contents(After(c, st, es))
    decreases |es|
  {
    hide Inv, Enabled, Step, Contents, LinkedBy, TakenBy;
    if es != [] {
      var st1 := Step(c, st, es[0]);
      StepInv(c, st, es[0]);
      StaysNormal(c, st, es[0]);
      FifoStep(c, st, es[0]);
      Fifo(c, st1, es[1..]);
      Rebracket(Contents(st), LinkedBy(st, es[0]), Sent(c, st1, es[1..]), TakenBy(st, es[0]),
        Received(c, st1, es[1..]), Contents(st1), Contents(After(c, st, es)));
    }
  }

  // ----- what the receivers get -----

  datatype Letter = Letter(buffer: Message, urgent: bool)

  /** The queue without its slots: the buffers sent and not yet taken, oldest first, and those
      in the hands of senders and of receivers. */
  datatype Post = Post(queued: seq<Message>, sending: map<Thread, Letter>, receiving: map<Thread, Message>)

  function Handle(q: Post, e: Event): Post {
    match e
    case Fill(t, buffer, urgent) => q.(sending := q.sending[t := Letter(buffer, urgent)])
    case Link(t) =>
      if t !in q.sending then q
      else
        var Letter(buffer, urgent) := q.sending[t];
        q.(queued := if urgent then [buffer] + q.queued else q.queued + [buffer], sending := q.sending - {t})
    case Receive(t, wait) =>
      if q.queued == [] then q
      else q.(queued := q.queued[1..], receiving := q.receiving[t := q.queued[0]])
    case Release(t) => q.(receiving := q.receiving - {t})
    case Reset => q.(queued := [])
    case _ => q
  }

  function HandleAll(q: Post, es: seq<Event>): Post
    decreases |es|
  {
    if es == [] then q else HandleAll(Handle(q, es[0]), es[1..])
  }

  predicate Starts(data: map<int, Message>, slot: int, buffer: Message) {
    slot in data && buffer <= data[slot]
  }

  /** Every slot starts with the bytes its sender passed: while the sender holds it, while it
      is queued, and while a receiver copies it out. */
  ghost predicate Carries(st: State, q: Post) {
    && |q.queued| == |st.queue|
    && (forall i {:trigger st.queue[i]} :: 0 <= i < |st.queue| ==> Starts(st.data, st.queue[i], q.queued[i]))
    && (forall t {:trigger t in q.sending} {:trigger st.phase[t]} ::
          t in q.sending <==> t in st.phase && st.phase[t].Filled?)
    && (forall t {:trigger q.sending[t]} :: t in q.sending ==>
          st.phase[t].urgent == q.sending[t].urgent && Starts(st.data, st.phase[t].slot, q.sending[t].buffer))
    && (forall t {:trigger t in q.receiving} {:trigger st.phase[t]} ::
          t in q.receiving <==> t in st.phase && st.phase[t].Draining?)
    && (forall t {:trigger q.receiving[t]} :: t in q.receiving ==> Starts(st.data, st.phase[t].slot, q.receiving[t]))
  }

  lemma StepCarries(c: Config, st: State, e: Event, q: Post)
    requires Enabled(c, st, e) && Inv(c, st) && Carries(st, q)
    ensures Carries(Step(c, st, e), Handle(q, e))
  {
    match e
    case Fill(t, buffer, urgent) => FillCarries(c, st, e, q);
    case Link(t) => LinkCarries(c, st, e, q);
    case Receive(t, wait) => ReceiveCarries(c, st, e, q);
    case Release(t) => ReleaseCarries(c, st, e, q);
    case Reset => ResetCarries(c, st, q);
    case _ => OthersCarry(c, st, e, q);
  }

  /** Whatever is sent is what is received: over any run, with any number of senders and
      receivers, urgent messages and resets. */
  lemma {:induction false} RunCarries(c: Config, st: State, es: seq<Event>, q: Post)
    requires Runnable(c, st, es) && Inv(c, st) && Carries(st, q)
    ensures Carries(After(c, st, es), HandleAll(q, es))
    decreases |es|
  {
    hide Inv, Enabled, Step, Carries, Handle;
    if es != [] {
      StepInv(c, st, es[0]);
      StepCarries(c, st, es[0], q);
      RunCarries(c, Step(c, st, es[0]), es[1..], Handle(q, es[0]));
    }
  }

  /** In particular from an empty queue on. */
  lemma RunDelivers(c: Config, es: seq<Event>)
    requires Runnable(c, Start(c), es)
    ensures Carries(After(c, Start(c), es), HandleAll(Post([], map[], map[]), es))
  {
    StartInv(c);
    RunCarries(c, Start(c), es, Post([], map[], map[]));
  }

  lemma FillCarries(c: Config, st: State, e: Event, q: Post)
    requires Enabled(c, st, e) && e.Fill? && Inv(c, st) && Carries(st, q)
    ensures Carries(Step(c, st, e), Handle(q, e))
  {
    var slot := st.phase[e.t].slot;
    LinkFacts(c, st, e.t, slot);
    HeldFacts(c, st, e.t, slot);
    hide Inv, NoDup;
    var st' := Step(c, st, e);
    assert e.buffer <= st'.data[slot];
    forall i {:trigger st'.queue[i]} | 0 <= i < |st'.queue| ensures Starts(st'.data, st'.queue[i], q.queued[i]) {
      assert st.queue[i] in st.queue;
    }
  }

  lemma LinkCarries(c: Config, st: State, e: Event, q: Post)
    requires Enabled(c, st, e) && e.Link? && Inv(c, st) && Carries(st, q)
    ensures Carries(Step(c, st, e), Handle(q, e))
  {
    HeadWaits(st);
    hide Inv, NoDup, Starts;
    assert e.t in q.sending;
  }

  lemma ReceiveCarries(c: Config, st: State, e: Event, q: Post)
    requires Enabled(c, st, e) && e.Receive? && Inv(c, st) && Carries(st, q)
    ensures Carries(Step(c, st, e), Handle(q, e))
  {
    hide Inv, NoDup, Enqueue, Starts;
  }

  lemma ReleaseCarries(c: Config, st: State, e: Event, q: Post)
    requires Enabled(c, st, e) && e.Release? && Inv(c, st) && Carries(st, q)
    ensures Carries(Step(c, st, e), Handle(q, e))
  {
    hide Inv, Starts;
  }

  lemma ResetCarries(c: Config, st: State, q: Post)
    requires Inv(c, st) && Carries(st, q)
    ensures Carries(Step(c, st, Reset), Handle(q, Reset))
  {
    hide Starts, Reversed, NoDup, Inv;
    WaitersAreWaiting(c, st);
  }

  lemma OthersCarry(c: Config, st: State, e: Event, q: Post)
    requires Enabled(c, st, e) && (e.Reserve? || e.Expire? || e.Fail?) && Inv(c, st) && Carries(st, q)
    ensures Carries(Step(c, st, e), Handle(q, e))
  {
    hide Inv, Leave, Starts;
  }

  lemma WaitersAreWaiting(c: Config, st: State)
    requires Inv(c, st)
    ensures forall t {:trigger t in st.waiters} :: t in st.waiters ==> t in st.phase && st.phase[t] == Waiting
  {
  }

  lemma HeadWaits(st: State)
    requires Waiters(st)
    ensures st.waiters != [] ==> st.waiters[0] in st.phase && st.phase[st.waiters[0]] == Waiting
  {
    if st.waiters != [] {
      var w := st.waiters[0];
      assert w in st.waiters;
    }
  }

  lemma WaitersWait(st: State)
    requires Waiters(st)
    ensures NoDup(st.waiters)
    ensures forall t {:trigger t in st.waiters} :: t in st.waiters <==> t in st.phase && st.phase[t] == Waiting
  {
  }

  // ----- the queue in place -----

  /** The wait list's head node, which is no thread. */
  const LIST: int := -1

  /** What a step does to the error fields of the threads that wait. */
  function Errors(st: State, e: Event, error: map<Thread, Error>): map<Thread, Error> {
    match e
    case Receive(t, wait) => if st.queue == [] && wait then error[t := EOK] else error
    case Expire(t) => error[t := ETIMEOUT]
    case Reset => SetErrors(error, st.waiters, ERROR)
    case _ => error
  }

  /** A thread finds out from its error field why it was resumed. */
  ghost predicate Recorded(phase: map<Thread, Phase>, error: map<Thread, Error>) {
    forall t {:trigger phase[t]} :: t in phase ==>
      && (phase[t].Waiting? || phase[t].Woken? ==> t in error && error[t] == EOK)
      && (phase[t].Failed? ==> t in error && error[t] == phase[t].error && phase[t].error != EOK)
  }

  lemma StepRecorded(c: Config, st: State, e: Event, error: map<Thread, Error>)
    requires Enabled(c, st, e) && Waiters(st) && Recorded(st.phase, error)
    ensures Recorded(Step(c, st, e).phase, Errors(st, e, error))
  {
    HeadWaits(st);
    WaitersWait(st);
    hide NoDup, Enqueue, Leave, Reversed, Overlay, Waiters;
  }

  /** What the steps do to the threads: the thread itself moves on, a linked message resumes the
      first waiter, and a reset or a timeout fails whom it concerns. */
  lemma LinkEffects(c: Config, st: State, t: Thread)
    requires Enabled(c, st, Link(t)) && Inv(c, st)
    ensures var r := Step(c, st, Link(t));
            if st.waiters == [] then r.waiters == [] && r.phase == st.phase - {t}
            else
              r.waiters == st.waiters[1..] && st.waiters[0] != t && st.waiters[0] in st.phase
              && r.phase == (st.phase - {t})[st.waiters[0] := Woken]
  {
    HeadWaits(st);
    hide Inv;
  }

  lemma ReceiveEffects(c: Config, st: State, t: Thread, wait: bool)
    requires Enabled(c, st, Receive(t, wait))
    ensures var r := Step(c, st, Receive(t, wait));
            if st.queue != [] then
              st.queue == [st.queue[0]] + r.queue && r.waiters == st.waiters
              && r.phase == st.phase[t := Draining(st.queue[0])]
            else
              r.queue == [] && r.waiters == (if wait then Enqueue(st.waiters, t, c.prio, c.flag) else st.waiters)
              && r.phase == if wait then st.phase[t := Waiting] else st.phase - {t}
  {
    hide Enqueue;
  }

  lemma ExpireEffects(c: Config, st: State, t: Thread)
    requires Enabled(c, st, Expire(t)) && Inv(c, st)
    ensures var r := Step(c, st, Expire(t));
            && r.queue == st.queue && r.free == st.free && r.phase == st.phase[t := Failed(ETIMEOUT)]
            && t !in r.waiters
  {
    LeaveMembers(st.waiters, t);
    hide NoDup, Leave;
  }

  lemma ResetEffects(c: Config, st: State)
    ensures var r := Step(c, st, Event.Reset);
            && Contents(r) == [] && r.queue == [] && r.waiters == []
            && AllFailed(st.phase, st.waiters, Failed(ERROR), r.phase)
  {
  }

  /** The next pointer of a normal message stays clear until it is linked. */
  ghost predicate Cleared(next: LinkMap, st: State) {
    forall t {:trigger st.phase[t]} :: t in st.phase && st.phase[t].Filled? && !st.phase[t].urgent ==>
      st.phase[t].slot in next && next[st.phase[t].slot] == NULL
  }

  class Queue {
    const c: Config
    /** The next pointers of the slots, and the bytes behind each. */
    var next: LinkMap
    var store: map<int, Message>
    var msgQueueHead: int
    var msgQueueTail: int
    var msgQueueFree: int
    var entry: nat
    const suspendThread: Links
    /** The error fields of the threads. */
    var error: map<Thread, Error>
    /** The state the queue and the threads are in. */
    ghost var st: State

    /** The two chains of slots, and what the queue's other fields say about them. */
    ghost predicate Chains(free: seq<int>, queue: seq<int>)
      reads `next, `msgQueueFree, `msgQueueHead, `msgQueueTail, `entry
    {
      && ListFrom(next, msgQueueFree, free) && ListFrom(next, msgQueueHead, queue)
      && msgQueueTail == Left(NULL, queue, |queue|) && entry == |queue|
      && (forall s {:trigger s in next} :: 0 <= s < c.max ==> s in next)
    }

    ghost predicate Valid()
      reads this, suspendThread
    {
      && Chains(st.free, st.queue) && store == st.data && suspendThread.Holds(LIST, st.waiters)
      && Cleared(next, st) && Recorded(st.phase, error)
      && Inv(c, st)
    }

    /** rt_mq_init. */
    constructor (c: Config)
      ensures Valid() && this.c == c && st == Start(c) && fresh(suspendThread)
    {
      this.c := c;
      var n: LinkMap, head := map[], NULL;
      for temp := 0 to c.max
        invariant ListFrom(n, head, Down(temp)) && forall s {:trigger s in n} :: s in n <==> 0 <= s < temp
      {
        ghost var n0 := n;
        n := n[temp := head];
        DownMembers(temp);
        ListKept(n0, n, head, Down(temp));
        assert Down(temp + 1)[1..] == Down(temp);
        head := temp;
      }
      next, msgQueueFree := n, head;
      var l := new Links();
      l.Init(LIST);
      suspendThread := l;
      msgQueueHead, msgQueueTail, entry, error := NULL, NULL, 0, map[];
      store := Blank(c.max, c.msgSize);
      st := Start(c);
      StartInv(c);
    }

    /** First region of rt_mq_send and rt_mq_urgent: take a slot off the free list. */
    method ReserveSlot(t: Thread) returns (msg: int)
      requires Valid() && Enabled(c, st, Reserve(t))
      modifies `msgQueueFree, `st
      ensures st == Step(c, old(st), Reserve(t)) && Valid()
      ensures msg == NULL <==> old(st).free == []
      ensures msg == NULL ==> st == old(st)
      ensures msg != NULL ==>
                Holds(st, t, msg) && old(st).free == [msg] + st.free && st.queue == old(st).queue
                && st.phase == old(st).phase[t := Filling(msg)]
    {
      hide Conserved, Stored, Waiters, NoLostWakeup, Recorded, Ring;
      StepRecorded(c, st, Reserve(t), error);
      StepInv(c, st, Reserve(t));
      ListStart(next, msgQueueFree, st.free);
      msg := msgQueueFree;
      if msg == NULL {
        return;
      }
      msgQueueFree := next[msg];
      st := Step(c, st, Reserve(t));
      assert Holds(st, t, msg);
      assert Cleared(next, st);
      assert ListFrom(next, msgQueueFree, st.free);
    }

    /** Outside the regions: clear `next` of a normal message and copy the buffer. */
    method CopyIn(t: Thread, msg: int, buffer: Message, urgent: bool)
      requires Valid() && Enabled(c, st, Fill(t, buffer, urgent)) && Holds(st, t, msg)
      modifies `next, `store, `st
      ensures st == Step(c, old(st), Fill(t, buffer, urgent)) && Valid()
      ensures |buffer| <= c.msgSize && msg in store && |store[msg]| == c.msgSize && store[msg][..|buffer|] == buffer
              && msg in old(store) && |old(store)[msg]| == c.msgSize
              && store[msg][|buffer|..] == old(store)[msg][|buffer|..]
              && st.phase == old(st).phase[t := Filled(msg, urgent)] && st.queue == old(st).queue
    {
      hide Conserved, Stored, Waiters, NoLostWakeup, Recorded, Ring;
      StepInv(c, st, Fill(t, buffer, urgent));
      HeldFacts(c, st, t, msg);
      StepRecorded(c, st, Fill(t, buffer, urgent), error);
      if !urgent {
        next := next[msg := NULL];
        ListKept(old(next), next, msgQueueFree, st.free);
        ListKept(old(next), next, msgQueueHead, st.queue);
      }
      store := store[msg := Overlay(store[msg], buffer)];
      st := Step(c, st, Fill(t, buffer, urgent));
    }

    /** Second region of rt_mq_send and rt_mq_urgent: link the message, resume a receiver. */
    method LinkMessage(t: Thread, msg: int, urgent: bool)
      requires Valid() && Enabled(c, st, Link(t)) && Holds(st, t, msg) && st.phase[t].urgent == urgent
      modifies `next, `msgQueueHead, `msgQueueTail, `entry, `st, suspendThread
      ensures st == Step(c, old(st), Link(t)) && Valid()
      ensures msgQueueHead != NULL && entry == old(entry) + 1
      ensures st.queue == if urgent then [msg] + old(st).queue else old(st).queue + [msg]
      ensures old(st).waiters == [] ==> st.waiters == [] && st.phase == old(st).phase - {t}
      ensures old(st).waiters != [] ==>
                st.waiters == old(st).waiters[1..] && st.phase == (old(st).phase - {t})[old(st).waiters[0] := Woken]
    {
      hide Inv, Step, Enabled, HasSlot, NoDup, Chains, Ring, Recorded, Cleared;
      LinkEffects(c, st, t);
      ghost var st0 := st;
      LinkReady(c, st, t, msg, next);
      LinkIn(msg, urgent);
      LinkStep(c, st, t, old(next), next, error);
      WakeReceiver();
      st := Step(c, st0, Link(t));
    }

    method LinkIn(msg: int, urgent: bool)
      requires Chains(st.free, st.queue) && 0 <= msg < c.max && msg !in st.queue && msg !in st.free && NoDup(st.queue)
      requires !urgent ==> msg in next && next[msg] == NULL
      requires forall z {:trigger z in st.queue} :: z in st.queue ==> z !in st.free && 0 <= z < c.max
      modifies `next, `msgQueueHead, `msgQueueTail, `entry
      ensures Chains(st.free, if urgent then [msg] + st.queue else st.queue + [msg])
      ensures msgQueueHead != NULL && entry == old(entry) + 1
      ensures forall s {:trigger s in next} {:trigger s in old(next)} :: s in old(next) ==>
                s in next && (s !in st.queue && s != msg ==> next[s] == old(next)[s])
    {
      hide NoDup, ListFrom;
      if urgent { LinkHead(msg); } else { LinkTail(msg); }
      ListStart(next, msgQueueHead, if urgent then [msg] + st.queue else st.queue + [msg]);
      entry := entry + 1;
    }

    method WakeReceiver()
      requires suspendThread.Holds(LIST, st.waiters)
      modifies suspendThread
      ensures suspendThread.Holds(LIST, if st.waiters == [] then [] else st.waiters[1..])
    {
      hide Ring;
      var empty := suspendThread.IsEmpty(LIST, st.waiters);
      if !empty { var thread := ResumeFirst(suspendThread, LIST, st.waiters); }
    }

    /** Append a message whose `next` is clear. */
    method LinkTail(msg: int)
      requires ListFrom(next, msgQueueFree, st.free) && ListFrom(next, msgQueueHead, st.queue)
      requires msgQueueTail == Left(NULL, st.queue, |st.queue|) && msg != NULL && msg !in st.queue && msg !in st.free
      requires msg in next && next[msg] == NULL && NoDup(st.queue) && forall z {:trigger z in st.queue} ::
                 z in st.queue ==> z !in st.free && z != NULL
      modifies `next, `msgQueueHead, `msgQueueTail
      ensures ListFrom(next, msgQueueFree, st.free) && ListFrom(next, msgQueueHead, st.queue + [msg])
              && msgQueueTail == msg
      ensures forall s {:trigger s in next} {:trigger s in old(next)} :: s in old(next) ==>
                s in next && (s !in st.queue ==> next[s] == old(next)[s])
    {
      ghost var q := st.queue;
      ListInsert(next, msgQueueHead, q, |q|, msg);
      assert Insert(q, |q|, msg) == q + [msg] && next[msg := NULL] == next;
      if q != [] { ListAt(next, msgQueueHead, q, |q| - 1); assert q[|q| - 1] in q; }
      if msgQueueTail != NULL {
        next := next[msgQueueTail := msg];
        ListKept(old(next), next, msgQueueFree, st.free);
      }
      msgQueueTail := msg;
      if msgQueueHead == NULL { msgQueueHead := msg; }
    }

    /** Put an urgent message in front. */
    method LinkHead(msg: int)
      requires ListFrom(next, msgQueueFree, st.free) && ListFrom(next, msgQueueHead, st.queue)
      requires msgQueueTail == Left(NULL, st.queue, |st.queue|) && msg != NULL && msg !in st.queue && msg !in st.free
      requires NoDup(st.queue) && forall z {:trigger z in st.queue} :: z in st.queue ==> z !in st.free && z != NULL
      modifies `next, `msgQueueHead, `msgQueueTail
      ensures ListFrom(next, msgQueueFree, st.free) && ListFrom(next, msgQueueHead, [msg] + st.queue)
      ensures msgQueueTail == Left(NULL, [msg] + st.queue, |st.queue| + 1)
      ensures forall s {:trigger s in next} {:trigger s in old(next)} :: s in old(next) ==>
                s in next && (s != msg ==> next[s] == old(next)[s])
    {
      ListStart(next, msgQueueHead, st.queue);
      ListInsert(next, msgQueueHead, st.queue, 0, msg);
      assert Insert(st.queue, 0, msg) == [msg] + st.queue;
      if st.queue != [] { assert st.queue[|st.queue| - 1] in st.queue; }
      next := next[msg := msgQueueHead];
      msgQueueHead := msg;
      ListKept(old(next), next, msgQueueFree, st.free);
      if msgQueueTail == NULL { msgQueueTail := msg; }
    }

    /** The region of rt_mq_recv a receiver runs when it enters and whenever it is resumed:
        take the oldest message, or give up, or suspend. */
    method TakeMessage(t: Thread, wait: bool) returns (msg: int)
      requires Valid() && Enabled(c, st, Receive(t, wait)) && t != LIST
      modifies `msgQueueHead, `msgQueueTail, `entry, `error, `st, suspendThread
      ensures st == Step(c, old(st), Receive(t, wait)) && Valid()
      ensures msg == NULL <==> old(st).queue == []
      ensures msg != NULL ==> Holds(st, t, msg) && msg in store && Contents(old(st)) == [store[msg]] + Contents(st)
      ensures msg != NULL ==>
                old(st).queue == [msg] + st.queue && entry == |st.queue| && st.waiters == old(st).waiters
                && st.phase == old(st).phase[t := Draining(msg)]
      ensures msg == NULL && wait ==>
                st.waiters == Enqueue(old(st).waiters, t, c.prio, c.flag) && st.phase == old(st).phase[t := Waiting]
      ensures msg == NULL && !wait ==> st.waiters == old(st).waiters && st.phase == old(st).phase - {t}
    {
      hide Inv, Step, Enabled, HasSlot, Recorded, Cleared, Ring, Contents, Enqueue, Chains;
      ReceiveEffects(c, st, t, wait);
      ghost var st0 := st;
      ReceiveStep(c, st, t, wait, next, error);
      NotOnList(c, st, t, wait);
      var empty := Empty();
      if empty {
        msg := NULL;
        if wait {
          error := error[t := EOK];
          Suspend(suspendThread, LIST, t, c.prio, c.flag, st.waiters);
        }
      } else {
        msg := TakeOff();
      }
      st := Step(c, st0, Receive(t, wait));
    }

    method Empty() returns (empty: bool)
      requires Chains(st.free, st.queue)
      ensures empty == (st.queue == [])
    {
      empty := entry == 0;
    }

    method TakeOff() returns (msg: int)
      requires Chains(st.free, st.queue) && st.queue != []
      requires st.queue[0] == st.queue[|st.queue| - 1] <==> |st.queue| == 1
      modifies `msgQueueHead, `msgQueueTail, `entry
      ensures Chains(st.free, st.queue[1..]) && msg == st.queue[0]
    {
      ListAt(next, msgQueueHead, st.queue, 0);
      msg := msgQueueHead;
      msgQueueHead := next[msg];
      if msgQueueTail == msg { msgQueueTail := NULL; }
      entry := entry - 1;
    }

    /** A resumed receiver looks at its error field: it was resumed for a message, or it
        returns the error. */
    method Resumed(t: Thread) returns (e: Error)
      requires Valid() && t in st.phase && (st.phase[t].Woken? || st.phase[t].Failed?)
      modifies `st
      ensures e == EOK <==> old(st).phase[t].Woken?
      ensures e == EOK ==> st == old(st)
      ensures e != EOK ==> old(st).phase[t] == Failed(e) && st == Step(c, old(st), Fail(t))
      ensures e != EOK ==> st == old(st).(phase := old(st).phase - {t})
      ensures Valid()
    {
      hide Inv, Ring;
      e := error[t];
      if e != EOK {
        StepInv(c, st, Fail(t));
        st := Step(c, st, Fail(t));
      }
    }

    /** Outside the regions: copy the message out, as much of it as the caller has room for. */
    method CopyOut(t: Thread, msg: int, size: nat) returns (buffer: Message)
      requires Valid() && Holds(st, t, msg) && st.phase[t].Draining?
      ensures msg in store && |store[msg]| == c.msgSize
      ensures buffer == if size <= c.msgSize then store[msg][..size] else store[msg]
      ensures forall q: Post {:trigger Carries(st, q)} :: Carries(st, q) ==>
                t in q.receiving && (|q.receiving[t]| <= size ==> q.receiving[t] <= buffer)
    {
      HeldFacts(c, st, t, msg);
      hide Inv, Ring;
      var n := if size > c.msgSize then c.msgSize else size;
      buffer := store[msg][..n];
    }

    /** Last region of rt_mq_recv: put the slot back on the free list. */
    method ReturnSlot(t: Thread, msg: int)
      requires Valid() && Enabled(c, st, Release(t)) && Holds(st, t, msg)
      modifies `next, `msgQueueFree, `st
      ensures st == Step(c, old(st), Release(t)) && Valid()
      ensures st.free == [msg] + old(st).free && st.queue == old(st).queue && st.phase == old(st).phase - {t}
    {
      hide Conserved, Stored, Waiters, NoLostWakeup, Recorded, Ring;
      StepRecorded(c, st, Release(t), error);
      ghost var st0 := st;
      StepInv(c, st, Release(t));
      LinkFacts(c, st, t, msg);
      next := next[msg := msgQueueFree];
      ListKept(old(next), next, msgQueueFree, st.free);
      ListKept(old(next), next, msgQueueHead, st.queue);
      msgQueueFree := msg;
      st := Step(c, st0, Release(t));
      assert st.free[1..] == st0.free;
    }

    /** The timer of a suspended receiver expires. */
    method Timeout(t: Thread)
      requires Valid() && Enabled(c, st, Expire(t))
      modifies `error, `st, suspendThread
      ensures st == Step(c, old(st), Expire(t)) && Valid()
      ensures st.queue == old(st).queue && st.phase == old(st).phase[t := Failed(ETIMEOUT)] && t !in st.waiters
    {
      hide Conserved, Stored, Waiters, NoLostWakeup, Recorded, Ring;
      ExpireEffects(c, st, t);
      StepRecorded(c, st, Expire(t), error);
      WaitersWait(st);
      StepInv(c, st, Expire(t));
      error := error[t := ETIMEOUT];
      Withdraw(suspendThread, t, LIST, st.waiters);
      st := Step(c, st, Expire(t));
    }

    /** rt_mq_control with the reset command. */
    method Reset()
      requires Valid()
      modifies `next, `msgQueueHead, `msgQueueTail, `msgQueueFree, `entry, `error, `st, suspendThread
      ensures st == Step(c, old(st), Event.Reset) && Valid()
      ensures entry == 0 && msgQueueHead == NULL && Contents(st) == [] && st.waiters == []
              && AllFailed(old(st).phase, old(st).waiters, Failed(ERROR), st.phase)
    {
      hide Inv, Step, Recorded, Cleared, Ring, Chains, SetErrors, Reversed;
      ResetEffects(c, st);
      ghost var st0 := st;
      ResetStep(c, st, next, error);
      ResetFacts(c, st);
      error := ResumeAll(suspendThread, LIST, error, st.waiters);
      ReleaseAll();
      StillClearedByReset(c, st, old(next), next);
      st := Step(c, st0, Event.Reset);
    }

    /** Move the oldest message to the free list. */
    method ReleaseOne(ghost q: seq<int>, ghost f: seq<int>, ghost k: nat)
      requires k <= |q| && ListFrom(next, msgQueueHead, q[k..]) && ListFrom(next, msgQueueFree, Reversed(q[..k]) + f)
      requires msgQueueHead != NULL && NoDup(q) && forall z {:trigger z in q} :: z in q ==> z !in f
      requires msgQueueTail == if k < |q| then q[|q| - 1] else NULL
      modifies `next, `msgQueueHead, `msgQueueTail, `msgQueueFree
      ensures k < |q| && ListFrom(next, msgQueueHead, q[k + 1..])
              && ListFrom(next, msgQueueFree, Reversed(q[..k + 1]) + f)
      ensures msgQueueTail == if k + 1 < |q| then q[|q| - 1] else NULL
      ensures forall s {:trigger s in next} {:trigger s in old(next)} :: s in old(next) ==>
                s in next && (s !in q ==> next[s] == old(next)[s])
    {
      hide NoDup, ListFrom, Reversed;
      ListPop(next, msgQueueHead, q[k..]);
      Ahead(q, f, k);
      var msg := msgQueueHead;
      assert msg == q[k];
      ListPush(next, msgQueueFree, Reversed(q[..k]) + f, msg);
      msgQueueHead := next[msg];
      if msgQueueTail == msg { msgQueueTail := NULL; }
      next := next[msg := msgQueueFree];
      ListKept(old(next), next, msgQueueHead, q[k + 1..]);
      msgQueueFree := msg;
    }

    /** Release all messages in the queue. */
    method ReleaseAll()
      requires Chains(st.free, st.queue) && NoDup(st.queue)
      requires forall z {:trigger z in st.queue} :: z in st.queue ==> z != NULL && z !in st.free
      modifies `next, `msgQueueHead, `msgQueueTail, `msgQueueFree, `entry
      ensures Chains(Reversed(st.queue) + st.free, []) && entry == 0 && msgQueueHead == NULL
      ensures forall s {:trigger s in next} {:trigger s in old(next)} :: s in old(next) ==>
                s in next && (s !in st.queue ==> next[s] == old(next)[s])
    {
      hide NoDup, ListFrom, Reversed;
      ghost var q, f, k := st.queue, st.free, 0;
      assert q[0..] == q && q[..0] == [] && Reversed([]) + f == f by { ReversedNothing(f); }
      ListStart(next, msgQueueHead, q);
      while msgQueueHead != NULL
        invariant k <= |q| && ListFrom(next, msgQueueHead, q[k..]) && ListFrom(next, msgQueueFree, Reversed(q[..k]) + f)
        invariant msgQueueTail == if k < |q| then q[|q| - 1] else NULL
        invariant forall s {:trigger s in next} {:trigger s in old(next)} :: s in old(next) ==>
                    s in next && (s !in q ==> next[s] == old(next)[s])
        decreases |q| - k
      {
        ReleaseOne(q, f, k);
        k := k + 1;
      }
      ListStart(next, msgQueueHead, q[k..]);
      assert q[..|q|] == q && q[k..] == [];
      entry := 0;
    }
  }

  lemma ResetStep(c: Config, st: State, next: LinkMap, error: map<Thread, Error>)
    requires Inv(c, st) && Recorded(st.phase, error)
    ensures var st' := Step(c, st, Event.Reset);
            && st'.free == Reversed(st.queue) + st.free && st'.queue == [] && st'.waiters == [] && st'.data == st.data
            && Inv(c, st') && Recorded(st'.phase, SetErrors(error, st.waiters, ERROR))
  {
    StepInv(c, st, Event.Reset);
    StepRecorded(c, st, Event.Reset, error);
    hide Inv, Recorded;
  }

  lemma StillClearedByReset(c: Config, st: State, next: LinkMap, next': LinkMap)
    requires Inv(c, st) && Cleared(next, st)
    requires forall s {:trigger s in next'} {:trigger s in next} :: s in next ==>
               s in next' && (s !in st.queue ==> next'[s] == next[s])
    ensures Cleared(next', Step(c, st, Event.Reset))
  {
    ResetFacts(c, st);
    hide Inv, NoDup;
  }

  lemma NotOnList(c: Config, st: State, t: Thread, wait: bool)
    requires Inv(c, st) && Enabled(c, st, Receive(t, wait))
    ensures t !in st.waiters
  {
  }

  lemma LinkStep(c: Config, st: State, t: Thread, next: LinkMap, next': LinkMap, error: map<Thread, Error>)
    requires Enabled(c, st, Link(t)) && Inv(c, st) && Cleared(next, st) && Recorded(st.phase, error)
    requires forall s {:trigger s in next'} {:trigger s in next} :: s in next ==>
               s in next' && (s !in st.queue && s != st.phase[t].slot ==> next'[s] == next[s])
    ensures var st', slot := Step(c, st, Link(t)), st.phase[t].slot;
            && st'.free == st.free && st'.data == st.data
            && st'.queue == (if st.phase[t].urgent then [slot] + st.queue else st.queue + [slot])
            && st'.waiters == (if st.waiters == [] then [] else st.waiters[1..])
            && Inv(c, st') && Cleared(next', st') && Recorded(st'.phase, error)
  {
    StepInv(c, st, Link(t));
    StepRecorded(c, st, Link(t), error);
    StillCleared(c, st, t, next, next');
    hide Inv, Cleared, Recorded;
  }

  lemma LinkReady(c: Config, st: State, t: Thread, msg: int, next: LinkMap)
    requires Inv(c, st) && Cleared(next, st) && Holds(st, t, msg) && Enabled(c, st, Link(t))
    ensures 0 <= msg < c.max && msg !in st.queue && msg !in st.free && NoDup(st.queue)
    ensures !st.phase[t].urgent ==> msg in next && next[msg] == NULL
    ensures forall z {:trigger z in st.queue} :: z in st.queue ==> z !in st.free && 0 <= z < c.max
  {
    LinkFacts(c, st, t, msg);
  }

  lemma StillCleared(c: Config, st: State, t: Thread, next: LinkMap, next': LinkMap)
    requires Enabled(c, st, Link(t)) && Inv(c, st) && Cleared(next, st)
    requires forall s {:trigger s in next'} {:trigger s in next} :: s in next ==>
               s in next' && (s !in st.queue && s != st.phase[t].slot ==> next'[s] == next[s])
    ensures Cleared(next', Step(c, st, Link(t)))
  {
    LinkFacts(c, st, t, st.phase[t].slot);
    hide Inv, NoDup;
  }

  lemma ReceiveStep(c: Config, st: State, t: Thread, wait: bool, next: LinkMap, error: map<Thread, Error>)
    requires Enabled(c, st, Receive(t, wait)) && Inv(c, st) && Cleared(next, st) && Recorded(st.phase, error)
    ensures var st', q := Step(c, st, Receive(t, wait)), st.queue;
            && st'.free == st.free && st'.data == st.data && st'.queue == (if q == [] then [] else q[1..])
            && st'.waiters == (if q == [] && wait then Enqueue(st.waiters, t, c.prio, c.flag) else st.waiters)
            && (q != [] ==> Holds(st', t, q[0]) && q[0] in st.data && q[0] != NULL
                            && Contents(st) == [st.data[q[0]]] + Contents(st')
                            && (q[0] == q[|q| - 1] <==> |q| == 1))
            && Inv(c, st') && Cleared(next, st')
            && Recorded(st'.phase, if q == [] && wait then error[t := EOK] else error)
  {
    StepFlows(c, st, Receive(t, wait));
    StepInv(c, st, Receive(t, wait));
    StepRecorded(c, st, Receive(t, wait), error);
    OnlyLast(c, st);
    hide Inv, Recorded, Contents, Enqueue;
    if st.queue != [] { assert st.queue[0] in st.queue; }
  }

  lemma HeldFacts(c: Config, st: State, t: Thread, s: int)
    requires Conserved(c, st) && Stored(c, st) && Holds(st, t, s)
    ensures s !in st.free && s !in st.queue && 0 <= s < c.max && s in st.data && |st.data[s]| == c.msgSize
    ensures forall u {:trigger Holds(st, u, s)} :: Holds(st, u, s) ==> u == t
  {
  }

  lemma LinkFacts(c: Config, st: State, t: Thread, s: int)
    requires Inv(c, st) && Holds(st, t, s)
    ensures s !in st.free && s !in st.queue && 0 <= s < c.max && NoDup(st.queue)
    ensures forall u {:trigger Holds(st, u, s)} :: Holds(st, u, s) ==> u == t
    ensures forall u {:trigger st.phase[u]} :: u in st.phase && HasSlot(st.phase[u]) ==>
              st.phase[u].slot !in st.queue && (u != t ==> st.phase[u].slot != s)
    ensures forall z {:trigger z in st.queue} :: z in st.queue ==> z !in st.free && 0 <= z < c.max
  {
    forall u {:trigger st.phase[u]} | u in st.phase && HasSlot(st.phase[u])
      ensures st.phase[u].slot !in st.queue && (u != t ==> st.phase[u].slot != s)
    {
      assert Holds(st, u, st.phase[u].slot);
    }
  }

  /** The tail is the head only when it is the only message. */
  lemma OnlyLast(c: Config, st: State)
    requires Inv(c, st)
    ensures st.queue != [] ==> (st.queue[0] == st.queue[|st.queue| - 1] <==> |st.queue| == 1)
    ensures forall z {:trigger z in st.queue} :: z in st.queue ==> z != NULL
  {
    if |st.queue| > 1 { assert st.queue[|st.queue| - 1] in st.queue[1..]; }
  }

  lemma ResetFacts(c: Config, st: State)
    requires Inv(c, st)
    ensures NoDup(st.queue)
    ensures forall z {:trigger z in st.queue} :: z in st.queue ==> z != NULL && z !in st.free
    ensures forall t {:trigger st.phase[t]} :: t in st.phase && HasSlot(st.phase[t]) ==> st.phase[t].slot !in st.queue
  {
    forall t {:trigger st.phase[t]} | t in st.phase && HasSlot(st.phase[t]) ensures st.phase[t].slot !in st.queue {
      assert Holds(st, t, st.phase[t].slot);
    }
  }

  /** Position `k` of the queue while the ones before it are already on the free list. */
  lemma Ahead(q: seq<int>, f: seq<int>, k: nat)
    requires NoDup(q) && k < |q| && forall z {:trigger z in q} :: z in q ==> z !in f
    ensures q[k..][1..] == q[k + 1..] && q[k] !in q[k + 1..] && q[k] !in Reversed(q[..k]) + f
    ensures Reversed(q[..k + 1]) + f == [q[k]] + (Reversed(q[..k]) + f)
    ensures k + 1 < |q| ==> q[k] != q[|q| - 1]
  {
    hide NoDup, Reversed;
    NowhereElse(q, k);
    ReversedMembersOf(q[..k]);
    ReversedTake(q, k);
    assert q[k] in q;
    Associate(q[k], Reversed(q[..k]), f);
    if k + 1 < |q| { assert q[|q| - 1] == q[k + 1..][|q| - k - 2]; }
  }

  lemma Associate(x: int, r: seq<int>, f: seq<int>)
    ensures ([x] + r) + f == [x] + (r + f)
  {
  }

  lemma ReversedTake(q: seq<int>, k: nat)
    requires k < |q|
    ensures Reversed(q[..k + 1]) == [q[k]] + Reversed(q[..k]) && q[k..][1..] == q[k + 1..]
  {
    hide Reversed;
    ReversedSnoc(q[..k], q[k]);
    assert q[..k + 1] == q[..k] + [q[k]];
  }

  lemma ReversedNothing(f: seq<int>)
    ensures Reversed([]) + f == f
  {
  }

  lemma {:induction false} NowhereElse(q: seq<int>, k: nat)
    requires NoDup(q) && k < |q|
    ensures q[k] !in q[k + 1..] && q[k] !in q[..k]
    decreases |q|
  {
    if k > 0 {
      NowhereElse(q[1..], k - 1);
      assert q[..k] == [q[0]] + q[1..][..k - 1] && q[k + 1..] == q[1..][k..];
      assert q[k] == q[1..][k - 1] && q[k] in q[1..];
    }
  }

  lemma {:induction false} ReversedMembersOf(s: seq<int>)
    ensures forall z {:trigger z in Reversed(s)} :: z in Reversed(s) ==> z in s
    decreases |s|
  {
    if s != [] { ReversedMembersOf(s[1..]); }
  }

  lemma {:induction false} ReversedSnoc(s: seq<int>, x: int)
    ensures Reversed(s + [x]) == [x] + Reversed(s)
    decreases |s|
  {
    if s == [] {
      assert Reversed([x]) == Reversed([]) + [x];
    } else {
      ReversedSnoc(s[1..], x);
      assert (s + [x])[1..] == s[1..] + [x];
    }
  }

  /** The slots of a new queue, the last one first. */
  function Down(n: nat): seq<int> {
    if n == 0 then [] else [n - 1] + Down(n - 1)
  }

  lemma {:induction false} DownMembers(n: nat)
    ensures NoDup(Down(n)) && forall s {:trigger s in Down(n)} :: s in Down(n) <==> 0 <= s < n
  {
    if n > 0 {
      DownMembers(n - 1);
      assert Down(n)[1..] == Down(n - 1);
    }
  }

  function Blank(max: nat, size: nat): map<int, Message> {
    if max == 0 then map[] else Blank(max - 1, size)[max - 1 := seq(size, _ => 0)]
  }

  lemma {:induction false} BlankStores(max: nat, size: nat)
    ensures forall s {:trigger Blank(max, size)[s]} {:trigger s in Blank(max, size)} ::
              0 <= s < max ==> s in Blank(max, size) && |Blank(max, size)[s]| == size
  {
    if max > 0 { BlankStores(max - 1, size); }
  }

  function Start(c: Config): State {
    State(Down(c.max), [], Blank(c.max, c.msgSize), [], map[])
  }

  lemma StartInv(c: Config)
    ensures Inv(c, Start(c))
  {
    DownMembers(c.max);
    BlankStores(c.max, c.msgSize);
  }
}
