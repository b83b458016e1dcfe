/** The kernel's mailbox: a ring buffer of words with a list of waiting receivers and a list
    of waiting senders. Every interrupt-disabled region is one step. */
module Mailbox {
  import opened RingList
  import opened WaitList

  type Mail = bv32

  datatype Config = Config(size: nat, flag: Flag, prio: Priorities)

  /** What a thread is suspended for; a sender keeps the value it was called with. */
  datatype Role = Receiver | Sender(value: Mail)

  /** Where a thread is between two regions; a thread in none of these is not waiting. */
  datatype Phase = Waiting(role: Role) | Woken(role: Role) | Failed(error: Error)

  type Phases = map<Thread, Phase>

  datatype State = State(mail: seq<Mail>, receivers: seq<Thread>, senders: seq<Thread>, phase: Phases)

  datatype Event =
    | Send(t: Thread, value: Mail, wait: bool)
    | Receive(t: Thread, wait: bool)
    | Expire(t: Thread)
    | Fail(t: Thread)
    | Reset

  // ----- the steps -----

  predicate Enabled(c: Config, st: State, e: Event) {
    match e
    case Send(t, value, wait) => t !in st.phase || st.phase[t] == Woken(Sender(value))
    case Receive(t, wait) => t !in st.phase || st.phase[t] == Woken(Receiver)
    case Expire(t) => t in st.phase && st.phase[t].Waiting?
    case Fail(t) => t in st.phase && st.phase[t].Failed?
    case Reset => true
  }

  function Wake(phase: Phases, t: Thread): Phases {
    if t in phase && phase[t].Waiting? then phase[t := Woken(phase[t].role)] else phase
  }

  function ResumeReceiver(st: State): State {
    if st.receivers == [] then st
    else st.(receivers := st.receivers[1..], phase := Wake(st.phase, st.receivers[0]))
  }

  function ResumeSender(st: State): State {
    if st.senders == [] then st
    else st.(senders := st.senders[1..], phase := Wake(st.phase, st.senders[0]))
  }

  function Step(c: Config, st: State, e: Event): State
    requires Enabled(c, st, e)
  {
    match e
    case Send(t, value, wait) =>
      if |st.mail| != c.size then ResumeReceiver(st.(mail := st.mail + [value], phase := st.phase - {t}))
      else if wait then
        st.(senders := Enqueue(st.senders, t, c.prio, c.flag), phase := st.phase[t := Waiting(Sender(value))])
      else st.(phase := st.phase - {t})
    case Receive(t, wait) =>
      if st.mail != [] then ResumeSender(st.(mail := st.mail[1..], phase := st.phase - {t}))
      else if wait then
        st.(receivers := Enqueue(st.receivers, t, c.prio, c.flag), phase := st.phase[t := Waiting(Receiver)])
      else st.(phase := st.phase - {t})
    case Expire(t) =>
      var st' := st.(phase := st.phase[t := Failed(ETIMEOUT)]);
      if st.phase[t].role.Sender? then st'.(senders := Leave(st.senders, t))
      else st'.(receivers := Leave(st.receivers, t))
    case Fail(t) => st.(phase := st.phase - {t})
    case Reset => State([], [], [], FailAll(FailAll(st.phase, st.receivers, Failed(ERROR)), st.senders, Failed(ERROR)))
  }

  // ----- what every step keeps -----

  predicate WaitsToReceive(p: Phase) {
    p.Waiting? && p.role.Receiver?
  }

  predicate WaitsToSend(p: Phase) {
    p.Waiting? && p.role.Sender?
  }

  predicate WokenToReceive(p: Phase) {
    p.Woken? && p.role.Receiver?
  }

  predicate WokenToSend(p: Phase) {
    p.Woken? && p.role.Sender?
  }

  /** The list holds exactly the threads in such a phase. */
  ghost predicate Listed(s: seq<Thread>, phase: Phases, p: Phase -> bool) {
    NoDup(s) && forall t {:trigger t in s} :: t in s <==> t in phase && p(phase[t])
  }

  ghost predicate Lists(st: State) {
    Listed(st.receivers, st.phase, WaitsToReceive) && Listed(st.senders, st.phase, WaitsToSend)
  }

  /** While a receiver is suspended, every mail has a receiver that was resumed and has not
      run yet; while a sender is suspended, so has every empty place a sender. */
  ghost predicate NoLostWakeup(c: Config, st: State) {
    && (st.receivers != [] ==> |st.mail| <= |In(st.phase, WokenToReceive)|)
    && (st.senders != [] ==> c.size - |st.mail| <= |In(st.phase, WokenToSend)|)
  }

  ghost predicate Inv(c: Config, st: State) {
    |st.mail| <= c.size && Lists(st) && NoLostWakeup(c, st)
  }

  lemma StepLists(c: Config, st: State, e: Event)
    requires Enabled(c, st, e) && Lists(st)
    ensures Lists(Step(c, st, e))
  {
    hide Lists;
    match e
    case Send(t, value, wait) => SendLists(c, st, e);
    case Receive(t, wait) => ReceiveLists(c, st, e);
    case _ => OthersList(c, st, e);
  }

  lemma SendLists(c: Config, st: State, e: Event)
    requires Enabled(c, st, e) && Lists(st) && e.Send?
    ensures Lists(Step(c, st, e))
  {
    hide NoDup, Enqueue;
    EnqueueMembers(st.senders, e.t, c.prio, c.flag);
    if st.receivers != [] { TailMembers(st.receivers); }
  }

  lemma ReceiveLists(c: Config, st: State, e: Event)
    requires Enabled(c, st, e) && Lists(st) && e.Receive?
    ensures Lists(Step(c, st, e))
  {
    hide NoDup, Enqueue;
    EnqueueMembers(st.receivers, e.t, c.prio, c.flag);
    if st.senders != [] { TailMembers(st.senders); }
  }

  lemma OthersList(c: Config, st: State, e: Event)
    requires Enabled(c, st, e) && Lists(st) && !e.Send? && !e.Receive?
    ensures Lists(Step(c, st, e))
  {
    hide NoDup, Leave;
    EmptyNoDup();
    if e.Expire? {
      LeaveMembers(st.senders, e.t);
      LeaveMembers(st.receivers, e.t);
    }
  }

  /** The threads at the head of the lists wait. */
  lemma HeadsWait(st: State)
    requires Lists(st)
    ensures st.receivers != [] ==> st.receivers[0] in st.phase && WaitsToReceive(st.phase[st.receivers[0]])
    ensures st.senders != [] ==> st.senders[0] in st.phase && WaitsToSend(st.phase[st.senders[0]])
  {
    if st.receivers != [] {
      var r := st.receivers[0];
      assert r in st.receivers;
    }
    if st.senders != [] {
      var s := st.senders[0];
      assert s in st.senders;
    }
  }

  lemma SendWakes(c: Config, st: State, e: Event)
    requires Enabled(c, st, e) && e.Send? && Inv(c, st)
    ensures NoLostWakeup(c, Step(c, st, e))
  {
    hide NoDup, Enqueue, In, Lists;
    HeadsWait(st);
    InWithout(st.phase, e.t, WokenToReceive);
    InWithout(st.phase, e.t, WokenToSend);
    if |st.mail| != c.size {
      if st.receivers != [] {
        var w := st.receivers[0];
        InWith(st.phase - {e.t}, w, Woken(Receiver), WokenToReceive);
        InWith(st.phase - {e.t}, w, Woken(Receiver), WokenToSend);
      }
    } else if e.wait {
      InWith(st.phase, e.t, Waiting(Sender(e.value)), WokenToReceive);
    }
  }

  lemma ReceiveWakes(c: Config, st: State, e: Event)
    requires Enabled(c, st, e) && e.Receive? && Inv(c, st)
    ensures NoLostWakeup(c, Step(c, st, e))
  {
    hide NoDup, Enqueue, In, Lists;
    HeadsWait(st);
    InWithout(st.phase, e.t, WokenToReceive);
    InWithout(st.phase, e.t, WokenToSend);
    if st.mail != [] {
      if st.senders != [] {
        var w := st.senders[0];
        InWith(st.phase - {e.t}, w, Woken(st.phase[w].role), WokenToReceive);
        InWith(st.phase - {e.t}, w, Woken(st.phase[w].role), WokenToSend);
      }
    } else if e.wait {
      InWith(st.phase, e.t, Waiting(Receiver), WokenToSend);
    }
  }

  lemma OthersWake(c: Config, st: State, e: Event)
    requires Enabled(c, st, e) && !e.Send? && !e.Receive? && Inv(c, st)
    ensures NoLostWakeup(c, Step(c, st, e))
  {
    hide NoDup;
    var st' := Step(c, st, e);
    if e != Reset {
      assert In(st'.phase, WokenToReceive) == In(st.phase, WokenToReceive);
      assert In(st'.phase, WokenToSend) == In(st.phase, WokenToSend);
      if e.Expire? && WaitsToSend(st.phase[e.t]) { assert e.t in st.senders; }
      if e.Expire? && WaitsToReceive(st.phase[e.t]) { assert e.t in st.receivers; }
    }
  }

  lemma StepInv(c: Config, st: State, e: Event)
    requires Enabled(c, st, e) && Inv(c, st)
    ensures Inv(c, Step(c, st, e))
  {
    hide Lists, NoLostWakeup;
    StepLists(c, st, e);
    match e
    case Send(t, value, wait) => SendWakes(c, st, e);
    case Receive(t, wait) => ReceiveWakes(c, st, e);
    case _ => OthersWake(c, st, e);
  }

  /** Whatever others do, a suspended or resumed thread stays in its role, and a sender keeps
      its value, unless it fails: the value it sends in the end is the one it came with. */
  lemma RoleKept(c: Config, st: State, e: Event, t: Thread)
    requires Enabled(c, st, e) && Inv(c, st) && t in st.phase && !st.phase[t].Failed?
    requires e == Reset || e.t != t || e.Expire?
    ensures var st' := Step(c, st, e);
            t in st'.phase && (st'.phase[t].Failed? || st'.phase[t].role == st.phase[t].role)
    ensures e.Send? || e.Receive? ==> !Step(c, st, e).phase[t].Failed?
  {
    hide NoDup, Enqueue, Leave, NoLostWakeup;
    HeadsWait(st);
  }

  // ----- runs -----

  predicate Runnable(c: Config, st: State, es: seq<Event>)
    decreases |es|
  {
    es == [] || (Enabled(c, st, es[0]) && Runnable(c, Step(c, st, es[0]), es[1..]))
  }

  function After(c: Config, st: State, es: seq<Event>): State
    requires Runnable(c, st, es)
    decreases |es|
  {
    if es == [] then st else After(c, Step(c, st, es[0]), es[1..])
  }

  lemma {:induction false} RunInv(c: Config, st: State, es: seq<Event>)
    requires Runnable(c, st, es) && Inv(c, st)
    ensures Inv(c, After(c, st, es))
    decreases |es|
  {
    hide Inv, Enabled, Step;
    if es != [] {
      StepInv(c, st, es[0]);
      RunInv(c, Step(c, st, es[0]), es[1..]);
    }
  }

  /** The mail a step accepts, or hands out. */
  function AcceptedBy(c: Config, st: State, e: Event): seq<Mail> {
    if e.Send? && |st.mail| != c.size then [e.value] else []
  }

  function HandedBy(st: State, e: Event): seq<Mail> {
    if e.Receive? && st.mail != [] then [st.mail[0]] else []
  }

  function Accepted(c: Config, st: State, es: seq<Event>): seq<Mail>
    requires Runnable(c, st, es)
    decreases |es|
  {
    if es == [] then [] else AcceptedBy(c, st, es[0]) + Accepted(c, Step(c, st, es[0]), es[1..])
  }

  function Handed(c: Config, st: State, es: seq<Event>): seq<Mail>
    requires Runnable(c, st, es)
    decreases |es|
  {
    if es == [] then [] else HandedBy(st, es[0]) + Handed(c, Step(c, st, es[0]), es[1..])
  }

  lemma FifoStep(c: Config, st: State, e: Event)
    requires Enabled(c, st, e) && e != Reset
    ensures st.mail + AcceptedBy(c, st, e) == HandedBy(st, e) + Step(c, st, e).mail
  {
  }

  /** Between resets, the values received are a prefix of the values accepted, for any number
      of blocking senders and receivers; a value accepted is the one its sender was called
      with, however often the sender had to wait. */
  lemma {:induction false} Fifo(c: Config, st: State, es: seq<Event>)
    requires Runnable(c, st, es) && forall i {:trigger es[i]} :: 0 <= i < |es| ==> es[i] != Reset
    ensures st.mail + Accepted(c, st, es) == Handed(c, st, es) + After(c, st, es).mail
    decreases |es|
  {
    hide Enabled, Step, AcceptedBy, HandedBy;
    if es != [] {
      var st1 := Step(c, st, es[0]);
      FifoStep(c, st, es[0]);
      Fifo(c, st1, es[1..]);
      Rebracket(st.mail, AcceptedBy(c, st, es[0]), Accepted(c, st1, es[1..]), HandedBy(st, es[0]),
        Handed(c, st1, es[1..]), st1.mail, After(c, st, es).mail);
    }
  }

  /** What an event does to a plain queue with so many places, and what it takes from it. */
  function Passed(size: nat, q: seq<Mail>, e: Event): seq<Mail> {
    match e
    case Send(t, value, wait) => if |q| < size then q + [value] else q
    case Receive(t, wait) => if q == [] then [] else q[1..]
    case Reset => []
    case _ => q
  }

  function Out(q: seq<Mail>, e: Event): seq<Mail> {
    if e.Receive? && q != [] then [q[0]] else []
  }

  function PassedAll(size: nat, q: seq<Mail>, es: seq<Event>): seq<Mail>
    decreases |es|
  {
    if es == [] then q else PassedAll(size, Passed(size, q, es[0]), es[1..])
  }

  function OutAll(size: nat, q: seq<Mail>, es: seq<Event>): seq<Mail>
    decreases |es|
  {
    if es == [] then [] else Out(q, es[0]) + OutAll(size, Passed(size, q, es[0]), es[1..])
  }

  /** Over any run, with resets, timeouts and any number of blocking threads, the mailbox holds and
      hands out what a plain queue of its size would; nothing survives a reset. */
  lemma {:induction false} RunDelivers(c: Config, st: State, es: seq<Event>)
    requires Runnable(c, st, es) && Inv(c, st)
    ensures After(c, st, es).mail == PassedAll(c.size, st.mail, es)
    ensures Handed(c, st, es) == OutAll(c.size, st.mail, es)
    decreases |es|
  {
    hide Inv, Enabled, Step, HandedBy, Passed, Out;
    if es != [] {
      StepInv(c, st, es[0]);
      StepPasses(c, st, es[0]);
      RunDelivers(c, Step(c, st, es[0]), es[1..]);
    }
  }

  lemma StepPasses(c: Config, st: State, e: Event)
    requires Enabled(c, st, e) && Inv(c, st)
    ensures Step(c, st, e).mail == Passed(c.size, st.mail, e) && HandedBy(st, e) == Out(st.mail, e)
  {
    hide Lists, NoLostWakeup, Enqueue, Leave;
  }

  // ----- the mailbox in place -----

  /** The two wait lists' head nodes, which are no threads. */
  const RECEIVERS: int := -1
  const SENDERS: int := -2

  /** An offset below twice the size, taken around the ring. */
  function Around(k: nat, size: nat): nat {
    if k >= size then k - size else k
  }

  lemma AroundIsMod(k: nat, size: nat)
    requires 0 < size && k < 2 * size
    ensures Around(k, size) == k % size
  {
    if k >= size { assert k % size == (k - size) % size; }
  }

  /** The mail is what the ring holds from `at` on. */
  ghost predicate InRing(pool: seq<Mail>, mail: seq<Mail>, at: nat) {
    && |mail| <= |pool| && (|pool| > 0 ==> at < |pool|)
    && forall i {:trigger mail[i]} :: 0 <= i < |mail| ==> mail[i] == pool[Around(at + i, |pool|)]
  }

  lemma PutInRing(pool: seq<Mail>, mail: seq<Mail>, at: nat, value: Mail)
    requires InRing(pool, mail, at) && |mail| < |pool|
    ensures var k := Around(at + |mail|, |pool|); k < |pool| && InRing(pool[k := value], mail + [value], at)
    ensures var k := Around(at + |mail|, |pool|);
            Around(at + |mail| + 1, |pool|) == if k + 1 >= |pool| then 0 else k + 1
  {
  }

  lemma TakeFromRing(pool: seq<Mail>, mail: seq<Mail>, at: nat)
    requires InRing(pool, mail, at) && mail != []
    ensures mail[0] == pool[at] && InRing(pool, mail[1..], if at + 1 >= |pool| then 0 else at + 1)
    ensures Around(at + |mail|, |pool|) == Around((if at + 1 >= |pool| then 0 else at + 1) + (|mail| - 1), |pool|)
  {
    assert mail[0] == pool[Around(at + 0, |pool|)];
    forall i {:trigger mail[1..][i]} | 0 <= i < |mail| - 1
      ensures mail[1..][i] == pool[Around((if at + 1 >= |pool| then 0 else at + 1) + i, |pool|)]
    {
      assert mail[1..][i] == mail[i + 1];
    }
  }

  /** What a step does to the error fields of the threads that wait. */
  function Errors(c: Config, st: State, e: Event, error: map<Thread, Error>): map<Thread, Error> {
    match e
    case Send(t, value, wait) => if |st.mail| == c.size && wait then error[t := EOK] else error
    case Receive(t, wait) => if st.mail == [] && wait then error[t := EOK] else error
    case Expire(t) => error[t := ETIMEOUT]
    case Reset => SetErrors(SetErrors(error, st.receivers, ERROR), st.senders, ERROR)
    case _ => error
  }

  /** A thread finds out from its error field why it was resumed. */
  ghost predicate Recorded(phase: Phases, error: map<Thread, Error>) {
    forall t {:trigger phase[t]} :: t in phase ==>
      && t >= 0 && t in error && (!phase[t].Failed? ==> error[t] == EOK)
      && (phase[t].Failed? ==> error[t] == phase[t].error && phase[t].error != EOK)
  }

  lemma StepRecorded(c: Config, st: State, e: Event, error: map<Thread, Error>)
    requires Enabled(c, st, e) && Lists(st) && Recorded(st.phase, error)
    requires e.Send? || e.Receive? ==> e.t >= 0
    ensures Recorded(Step(c, st, e).phase, Errors(c, st, e, error))
  {
    hide NoDup, Enqueue, Leave;
    HeadsWait(st);
  }

  /** Nobody is on both lists, and no head is a thread. */
  lemma Apart(c: Config, st: State, error: map<Thread, Error>, t: Thread)
    requires Inv(c, st) && Recorded(st.phase, error) && t >= 0
    ensures RECEIVERS !in [SENDERS, t] + st.senders && SENDERS !in [RECEIVERS, t] + st.receivers
    ensures RECEIVERS !in [SENDERS] + st.senders && SENDERS !in [RECEIVERS] + st.receivers
    ensures forall z {:trigger z in st.receivers} :: z in st.receivers ==>
              z !in [SENDERS] + st.senders && (z != t ==> z !in [SENDERS, t] + st.senders)
    ensures forall z {:trigger z in st.senders} :: z in st.senders ==>
              z !in [RECEIVERS] + st.receivers && (z != t ==> z !in [RECEIVERS, t] + st.receivers)
    ensures t !in st.phase || !st.phase[t].Waiting? ==> t !in st.receivers && t !in st.senders
    ensures t in st.phase && WaitsToSend(st.phase[t]) ==> t in st.senders
    ensures t in st.phase && WaitsToReceive(st.phase[t]) ==> t in st.receivers
  {
    hide NoDup;
  }

  lemma SendStep(c: Config, st: State, t: Thread, value: Mail, wait: bool, error: map<Thread, Error>)
    requires Enabled(c, st, Send(t, value, wait)) && Inv(c, st) && Recorded(st.phase, error) && t >= 0
    ensures var st', full := Step(c, st, Send(t, value, wait)), |st.mail| == c.size;
            && |st.mail| <= c.size && Inv(c, st') && t !in st.senders && t !in st.receivers
            && Recorded(st'.phase, if full && wait then error[t := EOK] else error)
            && st'.mail == (if full then st.mail else st.mail + [value])
            && st'.receivers == (if full || st.receivers == [] then st.receivers else st.receivers[1..])
            && st'.senders == (if full && wait then Enqueue(st.senders, t, c.prio, c.flag) else st.senders)
  {
    StepInv(c, st, Send(t, value, wait));
    StepRecorded(c, st, Send(t, value, wait), error);
    Apart(c, st, error, t);
    hide Lists, NoLostWakeup, Recorded;
  }

  lemma ReceiveStep(c: Config, st: State, t: Thread, wait: bool, error: map<Thread, Error>)
    requires Enabled(c, st, Receive(t, wait)) && Inv(c, st) && Recorded(st.phase, error) && t >= 0
    ensures var st', none := Step(c, st, Receive(t, wait)), st.mail == [];
            && Inv(c, st') && t !in st.senders && t !in st.receivers
            && Recorded(st'.phase, if none && wait then error[t := EOK] else error)
            && st'.mail == (if none then [] else st.mail[1..])
            && st'.senders == (if none || st.senders == [] then st.senders else st.senders[1..])
            && st'.receivers == (if none && wait then Enqueue(st.receivers, t, c.prio, c.flag) else st.receivers)
  {
    StepInv(c, st, Receive(t, wait));
    StepRecorded(c, st, Receive(t, wait), error);
    Apart(c, st, error, t);
    hide Lists, NoLostWakeup, Recorded;
  }

  lemma OtherStep(c: Config, st: State, e: Event, error: map<Thread, Error>)
    requires Enabled(c, st, e) && !e.Send? && !e.Receive? && Inv(c, st) && Recorded(st.phase, error)
    ensures Inv(c, Step(c, st, e)) && Recorded(Step(c, st, e).phase, Errors(c, st, e, error))
  {
    StepInv(c, st, e);
    StepRecorded(c, st, e, error);
    hide Inv, Step, Recorded;
  }

  /** The first waiter, if there is one, is off the list and resumed in its role; nobody else is
      affected. */
  predicate WokenFirst(ws: seq<Thread>, phase: Phases, ws': seq<Thread>, phase': Phases) {
    if ws == [] then ws' == [] && phase' == phase
    else
      ws' == ws[1..] && ws[0] in phase && phase[ws[0]].Waiting? && phase' == phase[ws[0] := Woken(phase[ws[0]].role)]
  }

  /** With room the value goes in and the first receiver is resumed; without, nothing is accepted
      and the sender waits with its value, or is done. */
  predicate Sends(c: Config, st: State, t: Thread, value: Mail, wait: bool, r: State) {
    if |st.mail| < c.size then
      r.mail == st.mail + [value] && r.senders == st.senders
      && WokenFirst(st.receivers, st.phase - {t}, r.receivers, r.phase)
    else
      r.mail == st.mail && r.receivers == st.receivers
      && r.senders == (if wait then Enqueue(st.senders, t, c.prio, c.flag) else st.senders)
      && r.phase == if wait then st.phase[t := Waiting(Sender(value))] else st.phase - {t}
  }

  /** The oldest value comes out and the first sender is resumed, or there is none and the
      receiver waits, or is done. */
  predicate Receives(c: Config, st: State, t: Thread, wait: bool, r: State) {
    if st.mail != [] then
      st.mail == [st.mail[0]] + r.mail && r.receivers == st.receivers
      && WokenFirst(st.senders, st.phase - {t}, r.senders, r.phase)
    else
      r.mail == [] && r.senders == st.senders
      && r.receivers == (if wait then Enqueue(st.receivers, t, c.prio, c.flag) else st.receivers)
      && r.phase == if wait then st.phase[t := Waiting(Receiver)] else st.phase - {t}
  }

  lemma SendEffects(c: Config, st: State, t: Thread, value: Mail, wait: bool)
    requires Enabled(c, st, Send(t, value, wait)) && Inv(c, st)
    ensures Sends(c, st, t, value, wait, Step(c, st, Send(t, value, wait)))
  {
    HeadsWait(st);
    hide Lists, NoLostWakeup, Enqueue;
  }

  lemma ReceiveEffects(c: Config, st: State, t: Thread, wait: bool)
    requires Enabled(c, st, Receive(t, wait)) && Inv(c, st)
    ensures Receives(c, st, t, wait, Step(c, st, Receive(t, wait)))
  {
    HeadsWait(st);
    hide Lists, NoLostWakeup, Enqueue;
  }

  lemma ExpireEffects(c: Config, st: State, t: Thread)
    requires Enabled(c, st, Expire(t)) && Inv(c, st)
    ensures var r := Step(c, st, Expire(t));
            && r.mail == st.mail && r.phase == st.phase[t := Failed(ETIMEOUT)]
            && t !in r.receivers && t !in r.senders
  {
    LeaveMembers(st.senders, t);
    LeaveMembers(st.receivers, t);
    hide NoDup, NoLostWakeup, Leave;
  }

  lemma ResetEffects(c: Config, st: State)
    ensures var r := Step(c, st, Event.Reset);
            && r.mail == [] && r.receivers == [] && r.senders == []
            && AllFailed(st.phase, st.receivers + st.senders, Failed(ERROR), r.phase)
  {
  }

  class Box {
    const c: Config
    const msgPool: array<Mail>
    var entry: nat
    var inOffset: nat
    var outOffset: nat
    /** The list nodes of the threads, and the heads of the two wait lists. */
    const tlist: Links
    /** The error fields of the threads. */
    var error: map<Thread, Error>
    /** The state the mailbox and the threads are in. */
    ghost var st: State

    /** The mail is the `entry` words of the ring that start at `outOffset`, and `inOffset`
        comes right after them. */
    ghost predicate Filled(mail: seq<Mail>)
      reads `entry, `inOffset, `outOffset, msgPool
    {
      && msgPool.Length == c.size && entry == |mail| <= c.size
      && InRing(msgPool[..], mail, outOffset) && (c.size > 0 ==> inOffset == Around(outOffset + entry, c.size))
    }

    ghost predicate Valid()
      reads this, msgPool, tlist
    {
      && Filled(st.mail) && tlist.Holds(RECEIVERS, st.receivers) && tlist.Holds(SENDERS, st.senders)
      && Recorded(st.phase, error) && Inv(c, st)
    }

    /** rt_mb_init. */
    constructor (c: Config, msgPool: array<Mail>)
      requires msgPool.Length == c.size
      ensures Valid() && this.c == c && this.msgPool == msgPool && st == State([], [], [], map[]) && fresh(tlist)
    {
      this.c, this.msgPool := c, msgPool;
      var l := new Links();
      l.Init(RECEIVERS);
      ghost var next, prev := l.next, l.prev;
      l.Init(SENDERS);
      RingElsewhere(next, prev, l.next, l.prev, [SENDERS], RECEIVERS, []);
      tlist := l;
      entry, inOffset, outOffset, error := 0, 0, 0, map[];
      st := State([], [], [], map[]);
      EmptyNoDup();
    }

    /** The region of rt_mb_send_wait a sender runs when it enters and whenever it is resumed. */
    method SendWait(t: Thread, value: Mail, wait: bool) returns (sent: bool)
      requires Valid() && Enabled(c, st, Send(t, value, wait)) && t >= 0
      modifies this, msgPool, tlist
      ensures st == Step(c, old(st), Send(t, value, wait)) && Valid()
      ensures sent <==> old(entry) < c.size
      ensures Sends(c, old(st), t, value, wait, st)
    {
      hide Inv, Step, Enabled, Recorded, Filled, Ring, Enqueue, Sends;
      SendEffects(c, st, t, value, wait);
      ghost var st0 := st;
      SendStep(c, st, t, value, wait, error);
      EntryIs();
      var full := Full();
      if full {
        sent := false;
        if wait {
          WaitToSend(t);
        }
      } else {
        sent := true;
        Put(value);
        WakeReceiver();
      }
      st := Step(c, st0, Send(t, value, wait));
    }

    /** The region of rt_mb_recv a receiver runs when it enters and whenever it is resumed. */
    method Recv(t: Thread, wait: bool) returns (received: bool, value: Mail)
      requires Valid() && Enabled(c, st, Receive(t, wait)) && t >= 0
      modifies this, tlist
      ensures st == Step(c, old(st), Receive(t, wait)) && Valid()
      ensures received <==> old(st).mail != []
      ensures received ==> value == old(st).mail[0]
      ensures Receives(c, old(st), t, wait, st)
    {
      hide Inv, Step, Enabled, Recorded, Filled, Ring, Enqueue, Receives;
      ReceiveEffects(c, st, t, wait);
      ghost var st0 := st;
      ReceiveStep(c, st, t, wait, error);
      var empty := Empty();
      if empty {
        received, value := false, 0;
        if wait {
          WaitToReceive(t);
        }
      } else {
        received := true;
        value := Get();
        WakeSender();
      }
      st := Step(c, st0, Receive(t, wait));
    }

    /** Clear the thread's error and put it on the list of senders, or of receivers. */
    method WaitToSend(t: Thread)
      requires tlist.Holds(RECEIVERS, st.receivers) && tlist.Holds(SENDERS, st.senders)
      requires Inv(c, st) && Recorded(st.phase, error) && t >= 0 && t !in st.senders && t !in st.receivers
      modifies `error, tlist
      ensures tlist.Holds(SENDERS, Enqueue(st.senders, t, c.prio, c.flag)) && tlist.Holds(RECEIVERS, st.receivers)
      ensures error == old(error)[t := EOK]
    {
      hide Ring, Inv, Recorded, Enqueue;
      Apart(c, st, error, t);
      error := error[t := EOK];
      Suspend(tlist, SENDERS, t, c.prio, c.flag, st.senders);
      RingElsewhere(old(tlist.next), old(tlist.prev), tlist.next, tlist.prev, [SENDERS, t] + st.senders,
        RECEIVERS, st.receivers);
    }

    method WaitToReceive(t: Thread)
      requires tlist.Holds(RECEIVERS, st.receivers) && tlist.Holds(SENDERS, st.senders)
      requires Inv(c, st) && Recorded(st.phase, error) && t >= 0 && t !in st.senders && t !in st.receivers
      modifies `error, tlist
      ensures tlist.Holds(RECEIVERS, Enqueue(st.receivers, t, c.prio, c.flag)) && tlist.Holds(SENDERS, st.senders)
      ensures error == old(error)[t := EOK]
    {
      hide Ring, Inv, Recorded, Enqueue;
      Apart(c, st, error, t);
      error := error[t := EOK];
      Suspend(tlist, RECEIVERS, t, c.prio, c.flag, st.receivers);
      RingElsewhere(old(tlist.next), old(tlist.prev), tlist.next, tlist.prev, [RECEIVERS, t] + st.receivers,
        SENDERS, st.senders);
    }

    lemma EntryIs()
      requires Filled(st.mail)
      ensures entry == |st.mail| <= c.size
    {
    }

    method Full() returns (full: bool)
      requires Filled(st.mail)
      ensures full == (|st.mail| == c.size)
    {
      full := entry == c.size;
    }

    method Empty() returns (empty: bool)
      requires Filled(st.mail)
      ensures empty == (st.mail == [])
    {
      empty := entry == 0;
    }

    /** Write at the input offset, which goes around. */
    method Put(value: Mail)
      requires Filled(st.mail) && |st.mail| < c.size
      modifies `entry, `inOffset, msgPool
      ensures Filled(st.mail + [value])
    {
      PutInRing(msgPool[..], st.mail, outOffset, value);
      hide InRing, Around;
      msgPool[inOffset] := value;
      inOffset := inOffset + 1;
      if inOffset >= c.size { inOffset := 0; }
      entry := entry + 1;
    }

    /** Read at the output offset, which goes around. */
    method Get() returns (value: Mail)
      requires Filled(st.mail) && st.mail != []
      modifies `entry, `outOffset
      ensures value == st.mail[0] && Filled(st.mail[1..])
    {
      TakeFromRing(msgPool[..], st.mail, outOffset);
      hide InRing, Around;
      value := msgPool[outOffset];
      outOffset := outOffset + 1;
      if outOffset >= c.size { outOffset := 0; }
      entry := entry - 1;
    }

    method WakeReceiver()
      requires tlist.Holds(RECEIVERS, st.receivers) && tlist.Holds(SENDERS, st.senders)
      requires Inv(c, st) && Recorded(st.phase, error)
      modifies tlist
      ensures tlist.Holds(RECEIVERS, if st.receivers == [] then [] else st.receivers[1..])
      ensures tlist.Holds(SENDERS, st.senders)
    {
      hide Ring, Inv, Recorded;
      Apart(c, st, error, 0);
      var empty := tlist.IsEmpty(RECEIVERS, st.receivers);
      if !empty {
        var thread := ResumeFirst(tlist, RECEIVERS, st.receivers);
        RingElsewhere(old(tlist.next), old(tlist.prev), tlist.next, tlist.prev, [RECEIVERS] + st.receivers,
          SENDERS, st.senders);
      }
    }

    method WakeSender()
      requires tlist.Holds(RECEIVERS, st.receivers) && tlist.Holds(SENDERS, st.senders)
      requires Inv(c, st) && Recorded(st.phase, error)
      modifies tlist
      ensures tlist.Holds(SENDERS, if st.senders == [] then [] else st.senders[1..])
      ensures tlist.Holds(RECEIVERS, st.receivers)
    {
      hide Ring, Inv, Recorded;
      Apart(c, st, error, 0);
      var empty := tlist.IsEmpty(SENDERS, st.senders);
      if !empty {
        var thread := ResumeFirst(tlist, SENDERS, st.senders);
        RingElsewhere(old(tlist.next), old(tlist.prev), tlist.next, tlist.prev, [SENDERS] + st.senders,
          RECEIVERS, st.receivers);
      }
    }

    /** A resumed thread looks at its error field: it was resumed for mail or for room, or it
        returns the error. */
    method Resumed(t: Thread) returns (e: Error)
      requires Valid() && t in st.phase && !st.phase[t].Waiting?
      modifies `st
      ensures e == EOK <==> old(st).phase[t].Woken?
      ensures e == EOK ==> st == old(st)
      ensures e != EOK ==> old(st).phase[t] == Failed(e) && st == Step(c, old(st), Fail(t))
      ensures e != EOK ==> st == old(st).(phase := old(st).phase - {t})
      ensures Valid()
    {
      hide Inv, Ring, Filled;
      e := error[t];
      if e != EOK {
        OtherStep(c, st, Fail(t), error);
        st := Step(c, st, Fail(t));
      }
    }

    /** The timer of a suspended thread expires. */
    method Timeout(t: Thread)
      requires Valid() && Enabled(c, st, Expire(t))
      modifies `error, `st, tlist
      ensures st == Step(c, old(st), Expire(t)) && Valid()
      ensures st.mail == old(st).mail && st.phase == old(st).phase[t := Failed(ETIMEOUT)]
              && t !in st.receivers && t !in st.senders
    {
      ExpireEffects(c, st, t);
      hide Inv, Ring, Filled, Recorded, Leave;
      OtherStep(c, st, Expire(t), error);
      IsThread(st, error, t);
      Apart(c, st, error, t);
      error := error[t := ETIMEOUT];
      ghost var sends := t in st.senders;
      ghost var list, s := if sends then SENDERS else RECEIVERS, if sends then st.senders else st.receivers;
      Withdraw(tlist, t, list, s);
      RingElsewhere(old(tlist.next), old(tlist.prev), tlist.next, tlist.prev, [list] + s,
        if sends then RECEIVERS else SENDERS, if sends then st.receivers else st.senders);
      st := Step(c, st, Expire(t));
    }

    /** rt_ipc_list_resume_all on both lists. */
    method ResumeEveryone()
      requires Valid()
      modifies `error, tlist
      ensures tlist.Holds(RECEIVERS, []) && tlist.Holds(SENDERS, [])
      ensures error == SetErrors(SetErrors(old(error), st.receivers, ERROR), st.senders, ERROR)
    {
      hide Inv, Ring, Filled, Recorded, SetErrors;
      Apart(c, st, error, 0);
      error := ResumeAll(tlist, RECEIVERS, error, st.receivers);
      RingElsewhere(old(tlist.next), old(tlist.prev), tlist.next, tlist.prev, [RECEIVERS] + st.receivers,
        SENDERS, st.senders);
      ghost var next, prev := tlist.next, tlist.prev;
      error := ResumeAll(tlist, SENDERS, error, st.senders);
      RingElsewhere(next, prev, tlist.next, tlist.prev, [SENDERS] + st.senders, RECEIVERS, []);
    }

    /** rt_mb_control with the reset command. */
    method Reset()
      requires Valid()
      modifies `entry, `inOffset, `outOffset, `error, `st, tlist
      ensures st == Step(c, old(st), Event.Reset) && Valid()
      ensures entry == 0 && inOffset == 0 && outOffset == 0
      ensures st.mail == [] && st.receivers == [] && st.senders == []
              && AllFailed(old(st).phase, old(st).receivers + old(st).senders, Failed(ERROR), st.phase)
    {
      ResetEffects(c, st);
      hide Inv, Ring, Recorded, Filled, FailAll, SetErrors;
      OtherStep(c, st, Event.Reset, error);
      ResumeEveryone();
      Rewind();
      st := Step(c, st, Event.Reset);
    }

    /** No entries, and both offsets at the start. */
    method Rewind()
      requires Filled(st.mail)
      modifies `entry, `inOffset, `outOffset
      ensures Filled([]) && entry == 0 && inOffset == 0 && outOffset == 0
    {
      entry, inOffset, outOffset := 0, 0, 0;
    }
  }

  lemma IsThread(st: State, error: map<Thread, Error>, t: Thread)
    requires Recorded(st.phase, error) && t in st.phase
    ensures t >= 0
  {
  }
}
