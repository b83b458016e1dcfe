/** The kernel's event object: threads wait for all or any of a set of bits, and one send
    wakes everyone it satisfies, in list order, while clearing bits as it walks. */
module Event {
  import opened RingList
  import opened WaitList

  type Bits = bv32

  datatype Config = Config(flag: Flag, prio: Priorities)

  /** The bits a thread waits for, whether it needs all of them, and whether receiving clears. */
  datatype Want = Want(bits: Bits, all: bool, clear: bool)

  datatype Phase = Waiting(want: Want) | Woken(received: Bits) | Failed(error: Error)

  type Phases = map<Thread, Phase>

  datatype State = State(bits: Bits, waiters: seq<Thread>, phase: Phases)

  datatype Event =
    | Send(bits: Bits)
    | Receive(t: Thread, want: Want, wait: bool)
    | Return(t: Thread)
    | Expire(t: Thread)
    | Reset

  function Common(a: Bits, b: Bits): Bits {
    a & b
  }

  function Minus(s: Bits, a: Bits): Bits {
    s & !a
  }

  function Join(a: Bits, b: Bits): Bits {
    a | b
  }

  predicate Satisfied(w: Want, s: Bits) {
    if w.all then Common(w.bits, s) == w.bits else Common(w.bits, s) != 0
  }

  // ----- one pass of rt_event_send over the waiters -----

  predicate Wakes(t: Thread, s: Bits, phase: Phases) {
    t in phase && phase[t].Waiting? && Satisfied(phase[t].want, s)
  }

  /** The bits left once `t` has been looked at. */
  function Spend(t: Thread, s: Bits, phase: Phases): Bits {
    if Wakes(t, s, phase) && phase[t].want.clear then Minus(s, Common(phase[t].want.bits, s)) else s
  }

  function Wake(t: Thread, s: Bits, phase: Phases): Phases {
    if Wakes(t, s, phase) then phase[t := Woken(Common(phase[t].want.bits, s))] else phase
  }

  function Walk(ws: seq<Thread>, s: Bits, phase: Phases): State {
    if ws == [] then State(s, [], phase)
    else
      var r := Walk(ws[1..], Spend(ws[0], s, phase), Wake(ws[0], s, phase));
      if Wakes(ws[0], s, phase) then r else r.(waiters := [ws[0]] + r.waiters)
  }

  predicate Enabled(c: Config, st: State, e: Event) {
    match e
    case Send(bits) => true
    case Receive(t, want, wait) => t !in st.phase
    case Return(t) => t in st.phase && !st.phase[t].Waiting?
    case Expire(t) => t in st.phase && st.phase[t].Waiting?
    case Reset => true
  }

  function Step(c: Config, st: State, e: Event): State
    requires Enabled(c, st, e)
  {
    match e
    case Send(bits) => if bits == 0 then st else Walk(st.waiters, Join(st.bits, bits), st.phase)
    case Receive(t, want, wait) =>
      if want.bits == 0 then st
      else if Satisfied(want, st.bits) then (if want.clear then st.(bits := Minus(st.bits, want.bits)) else st)
      else if wait then st.(waiters := Enqueue(st.waiters, t, c.prio, c.flag), phase := st.phase[t := Waiting(want)])
      else st
    case Return(t) => st.(phase := st.phase - {t})
    case Expire(t) => st.(waiters := Leave(st.waiters, t), phase := st.phase[t := Failed(ETIMEOUT)])
    case Reset => State(0, [], FailAll(st.phase, st.waiters, Failed(ERROR)))
  }

  // ----- no lost wakeup -----

  ghost predicate Waiters(ws: seq<Thread>, phase: Phases) {
    NoDup(ws) && forall t {:trigger t in ws} :: t in ws <==> t in phase && phase[t].Waiting?
  }

  /** No suspended thread's condition holds of the event set. */
  ghost predicate Quiet(ws: seq<Thread>, s: Bits, phase: Phases) {
    forall t {:trigger t in ws} :: t in ws ==> !Wakes(t, s, phase)
  }

  ghost predicate Inv(st: State) {
    Waiters(st.waiters, st.phase) && Quiet(st.waiters, st.bits, st.phase)
  }

  predicate Within(a: Bits, b: Bits) {
    Common(a, b) == a
  }

  lemma WithinWithin(a: Bits, b: Bits, c: Bits)
    requires Within(a, b) && Within(b, c)
    ensures Within(a, c)
  {
    assert (a & b) & c == a & (b & c);
  }

  /** Clearing what a thread received is clearing all it was interested in: a send and a
      receive that need not wait leave the same bits. */
  lemma ClearingAgrees(w: Bits, s: Bits)
    ensures Minus(s, Common(w, s)) == Minus(s, w)
    ensures Within(Minus(s, w), s) && Common(Minus(s, w), w) == 0
  {
  }

  lemma SpendShrinks(t: Thread, s: Bits, phase: Phases)
    ensures Within(Spend(t, s, phase), s)
  {
    hide Common, Minus, Within, Satisfied;
    WithinItself(s);
    if Wakes(t, s, phase) { ClearingAgrees(phase[t].want.bits, s); }
  }

  lemma {:induction false} WalkShrinks(ws: seq<Thread>, s: Bits, phase: Phases)
    ensures Within(Walk(ws, s, phase).bits, s)
    decreases |ws|
  {
    hide Within, Wakes, Wake, Spend;
    if ws == [] {
      WithinItself(s);
    } else {
      var s1, phase1 := Spend(ws[0], s, phase), Wake(ws[0], s, phase);
      SpendShrinks(ws[0], s, phase);
      WalkShrinks(ws[1..], s1, phase1);
      WithinWithin(Walk(ws[1..], s1, phase1).bits, s1, s);
    }
  }

  lemma WithinItself(s: Bits)
    ensures Within(s, s)
  {
  }

  ghost predicate Same(t: Thread, p: Phases, q: Phases) {
    (t in p <==> t in q) && (t in p ==> q[t] == p[t])
  }

  lemma WakeOne(w: Thread, s: Bits, phase: Phases)
    ensures !Wakes(w, s, phase) ==> Wake(w, s, phase) == phase
    ensures Wakes(w, s, phase) ==>
              w in Wake(w, s, phase) && Wake(w, s, phase)[w] == Woken(Common(phase[w].want.bits, s))
    ensures forall t {:trigger Same(t, phase, Wake(w, s, phase))} :: t != w ==> Same(t, phase, Wake(w, s, phase))
  {
  }

  lemma SameSame(t: Thread, p: Phases, q: Phases, r: Phases)
    requires Same(t, p, q) && Same(t, q, r)
    ensures Same(t, p, r)
  {
  }

  /** Whoever stays on the list is untouched by the walk; whoever leaves it was woken. */
  lemma {:induction false} WalkKeeps(ws: seq<Thread>, s: Bits, phase: Phases, t: Thread)
    requires NoDup(ws)
    ensures var r := Walk(ws, s, phase);
            && (t in r.waiters ==> t in ws) && (t !in ws || t in r.waiters ==> Same(t, phase, r.phase))
            && (t in ws && t !in r.waiters ==> t in r.phase && r.phase[t].Woken?)
    decreases |ws|
  {
    hide Wakes, Wake, Spend, Same, NoDup;
    if ws == [] {
      SameAsItself(t, phase);
    } else {
      var w, s1, phase1 := ws[0], Spend(ws[0], s, phase), Wake(ws[0], s, phase);
      TailMembers(ws);
      WakeOne(w, s, phase);
      WalkKeeps(ws[1..], s1, phase1, t);
      var r1, r := Walk(ws[1..], s1, phase1), Walk(ws, s, phase);
      if t == w {
        if Wakes(w, s, phase) { SameThere(t, phase1, r1.phase); }
      } else if t !in ws || t in r.waiters {
        SameSame(t, phase, phase1, r1.phase);
      }
    }
  }

  lemma SameAsItself(t: Thread, p: Phases)
    ensures Same(t, p, p)
  {
  }

  lemma SameThere(t: Thread, p: Phases, q: Phases)
    requires Same(t, p, q)
    ensures t in p ==> t in q && q[t] == p[t]
  {
  }

  lemma {:induction false} WalkNoDup(ws: seq<Thread>, s: Bits, phase: Phases)
    requires NoDup(ws)
    ensures NoDup(Walk(ws, s, phase).waiters)
    decreases |ws|
  {
    hide Wakes, Wake, Spend;
    if ws != [] {
      var s1, phase1 := Spend(ws[0], s, phase), Wake(ws[0], s, phase);
      WalkNoDup(ws[1..], s1, phase1);
      WalkKeeps(ws[1..], s1, phase1, ws[0]);
      var r1 := Walk(ws[1..], s1, phase1);
      assert ([ws[0]] + r1.waiters)[1..] == r1.waiters;
    }
  }

  /** Nobody whose turn came in a send is left waiting for bits that are there at its end. */
  lemma {:induction false} WalkLeavesQuiet(ws: seq<Thread>, s: Bits, phase: Phases, t: Thread)
    requires NoDup(ws) && t in Walk(ws, s, phase).waiters
    ensures !Wakes(t, Walk(ws, s, phase).bits, Walk(ws, s, phase).phase)
    decreases |ws|
  {
    hide Satisfied, Wake, Spend, Same, NoDup;
    TailMembers(ws);
    var w, s1, phase1 := ws[0], Spend(ws[0], s, phase), Wake(ws[0], s, phase);
    var r1 := Walk(ws[1..], s1, phase1);
    WalkKeeps(ws[1..], s1, phase1, w);
    if t in r1.waiters {
      WalkLeavesQuiet(ws[1..], s1, phase1, t);
    } else {
      WakeOne(w, s, phase);
      WalkShrinks(ws, s, phase);
      StillQuiet(w, s, phase, r1.bits, r1.phase);
    }
  }

  lemma StillQuiet(w: Thread, s: Bits, phase: Phases, s1: Bits, phase1: Phases)
    requires !Wakes(w, s, phase) && Within(s1, s) && Same(w, phase, phase1)
    ensures !Wakes(w, s1, phase1)
  {
    hide Common, Within;
    if w in phase && phase[w].Waiting? {
      var bits := phase[w].want.bits;
      if Common(bits, s) == 0 { StillNone(bits, s, s1); }
      if Common(bits, s1) == bits { WereAll(bits, s, s1); }
    }
  }

  lemma StillNone(w: Bits, s: Bits, s1: Bits)
    requires Common(w, s) == 0 && Within(s1, s)
    ensures Common(w, s1) == 0
  {
    assert w & s1 == w & (s1 & s) == (w & s) & s1;
  }

  lemma WereAll(w: Bits, s: Bits, s1: Bits)
    requires Common(w, s1) == w && Within(s1, s)
    ensures Common(w, s) == w
  {
    assert w & s == (w & s1) & s == w & (s1 & s);
  }

  lemma StepInv(c: Config, st: State, e: Event)
    requires Enabled(c, st, e) && Inv(st)
    ensures Inv(Step(c, st, e))
  {
    hide Inv;
    match e
    case Send(bits) => if bits != 0 { SendInv(st, Join(st.bits, bits)); }
    case Receive(t, want, wait) => ReceiveInv(c, st, e);
    case Expire(t) => ExpireInv(c, st, e);
    case Return(t) => ReturnInv(c, st, e);
    case Reset => ResetInv(c, st);
  }

  lemma SendInv(st: State, s: Bits)
    requires Inv(st)
    ensures Inv(Walk(st.waiters, s, st.phase))
  {
    hide NoDup, Wakes, Walk;
    var r := Walk(st.waiters, s, st.phase);
    WalkNoDup(st.waiters, s, st.phase);
    forall t {:trigger t in r.waiters} ensures t in r.waiters <==> t in r.phase && r.phase[t].Waiting? {
      WalkKeeps(st.waiters, s, st.phase, t);
    }
    forall t {:trigger t in r.waiters} | t in r.waiters ensures !Wakes(t, r.bits, r.phase) {
      WalkLeavesQuiet(st.waiters, s, st.phase, t);
    }
  }

  lemma ReturnInv(c: Config, st: State, e: Event)
    requires Enabled(c, st, e) && Inv(st) && e.Return?
    ensures Inv(Step(c, st, e))
  {
    hide NoDup, Satisfied;
  }

  lemma ResetInv(c: Config, st: State)
    requires Inv(st)
    ensures Inv(Step(c, st, Reset))
  {
    hide NoDup, Satisfied;
    EmptyNoDup();
  }

  lemma ReceiveInv(c: Config, st: State, e: Event)
    requires Enabled(c, st, e) && Inv(st) && e.Receive?
    ensures Inv(Step(c, st, e))
  {
    hide NoDup, Enqueue, Satisfied, Minus;
    EnqueueMembers(st.waiters, e.t, c.prio, c.flag);
    if e.want.bits != 0 && Satisfied(e.want, st.bits) && e.want.clear {
      ReceiveQuiet(st, Minus(st.bits, e.want.bits), e.want.bits);
    }
  }

  lemma ReceiveQuiet(st: State, s: Bits, w: Bits)
    requires Inv(st) && s == Minus(st.bits, w)
    ensures Quiet(st.waiters, s, st.phase)
  {
    hide NoDup, Satisfied, Minus, Common, Within;
    ClearingAgrees(w, st.bits);
    forall t {:trigger t in st.waiters} | t in st.waiters ensures !Wakes(t, s, st.phase) {
      StillQuiet(t, st.bits, st.phase, s, st.phase);
    }
  }

  lemma ExpireInv(c: Config, st: State, e: Event)
    requires Enabled(c, st, e) && Inv(st) && e.Expire?
    ensures Inv(Step(c, st, e))
  {
    hide NoDup, Leave, Satisfied;
    LeaveMembers(st.waiters, e.t);
  }

  predicate Runnable(c: Config, st: State, es: seq<Event>)
    decreases |es|
  {
    es == [] || (Enabled(c, st, es[0]) && Runnable(c, Step(c, st, es[0]), es[1..]))
  }

  function After(c: Config, st: State, es: seq<Event>): State
    requires Runnable(c, st, es)
    decreases |es|
  {
    if es == [] then st else After(c, Step(c, st, es[0]), es[1..])
  }

  /** No lost wakeup: in every reachable state no suspended thread could go on. */
  lemma {:induction false} RunInv(c: Config, st: State, es: seq<Event>)
    requires Runnable(c, st, es) && Inv(st)
    ensures Inv(After(c, st, es))
    decreases |es|
  {
    hide Inv, Enabled, Step;
    if es != [] {
      StepInv(c, st, es[0]);
      RunInv(c, Step(c, st, es[0]), es[1..]);
    }
  }

  // ----- what each thread gets -----

  /** The event set when the `i`th waiter's turn comes. */
  function AtTurn(ws: seq<Thread>, s: Bits, phase: Phases, i: nat): Bits
    requires i < |ws|
  {
    if i == 0 then s else AtTurn(ws[1..], Spend(ws[0], s, phase), Wake(ws[0], s, phase), i - 1)
  }

  /** A waiter is woken exactly when its condition holds at its turn, and then receives what it
      asked for of the bits that are set at that moment. */
  lemma {:induction false} WalkAnswers(ws: seq<Thread>, s: Bits, phase: Phases, i: nat)
    requires NoDup(ws) && i < |ws| && ws[i] in phase && phase[ws[i]].Waiting?
    ensures var r, b, t := Walk(ws, s, phase), AtTurn(ws, s, phase, i), ws[i];
            && t in r.phase
            && r.phase[t] == (if Satisfied(phase[t].want, b) then Woken(Common(phase[t].want.bits, b)) else phase[t])
            && (t in r.waiters <==> !Satisfied(phase[t].want, b))
    decreases |ws|
  {
    hide Satisfied, Wake, Spend, NoDup, Common;
    TailMembers(ws);
    var w, s1, phase1 := ws[0], Spend(ws[0], s, phase), Wake(ws[0], s, phase);
    var r1 := Walk(ws[1..], s1, phase1);
    var t := ws[i];
    WakeOne(w, s, phase);
    WalkKeeps(ws[1..], s1, phase1, w);
    if i > 0 {
      OtherThan(ws, i);
      assert Same(t, phase, phase1);
      WalkAnswers(ws[1..], s1, phase1, i - 1);
    }
  }

  /** The bits the clearing waiters consume in one pass, in order. */
  function Consumed(ws: seq<Thread>, s: Bits, phase: Phases): seq<Bits> {
    if ws == [] then []
    else
      (if Wakes(ws[0], s, phase) && phase[ws[0]].want.clear then [Common(phase[ws[0]].want.bits, s)] else [])
      + Consumed(ws[1..], Spend(ws[0], s, phase), Wake(ws[0], s, phase))
  }

  function Union(cs: seq<Bits>): Bits {
    if cs == [] then 0 else Join(cs[0], Union(cs[1..]))
  }

  ghost predicate Disjoint(cs: seq<Bits>) {
    cs == [] || (Common(cs[0], Union(cs[1..])) == 0 && Disjoint(cs[1..]))
  }

  /** No bit is consumed twice: what the clearing waiters take is pairwise disjoint, and with
      what is left it is exactly what was there. */
  lemma {:induction false} ConsumedOnce(ws: seq<Thread>, s: Bits, phase: Phases)
    ensures var r, cs := Walk(ws, s, phase), Consumed(ws, s, phase);
            Disjoint(cs) && Shares(s, r.bits, Union(cs))
    decreases |ws|
  {
    hide Satisfied, Wake, Shares, Common, Minus, Join;
    if ws == [] {
      SharesNothing(s);
    } else {
      var s1, phase1 := Spend(ws[0], s, phase), Wake(ws[0], s, phase);
      ConsumedOnce(ws[1..], s1, phase1);
      var r, cs1, cs := Walk(ws[1..], s1, phase1), Consumed(ws[1..], s1, phase1), Consumed(ws, s, phase);
      if Wakes(ws[0], s, phase) && phase[ws[0]].want.clear {
        assert cs[0] == Common(phase[ws[0]].want.bits, s) && cs[1..] == cs1;
        SplitOff(s, phase[ws[0]].want.bits, s1, r.bits, Union(cs1));
      } else {
        assert cs == cs1;
      }
    }
  }

  /** `s` is made of `left` and `rest`, which have no bit in common. */
  predicate Shares(s: Bits, left: Bits, rest: Bits) {
    Common(left, rest) == 0 && Join(left, rest) == s
  }

  lemma SharesNothing(s: Bits)
    ensures Shares(s, s, 0)
  {
  }

  lemma SplitOff(s: Bits, w: Bits, s1: Bits, left: Bits, rest: Bits)
    requires s1 == Minus(s, Common(w, s)) && Shares(s1, left, rest)
    ensures Common(Common(w, s), rest) == 0 && Shares(s, left, Join(Common(w, s), rest))
  {
    hide Common, Minus, Join, Shares;
    CommonIsWithin(w, s);
    Regroup(s, Common(w, s), s1, left, rest);
  }

  lemma CommonIsWithin(w: Bits, s: Bits)
    ensures Common(Common(w, s), s) == Common(w, s)
  {
  }

  lemma Regroup(s: Bits, g: Bits, s1: Bits, left: Bits, rest: Bits)
    requires s1 == Minus(s, g) && Common(g, s) == g && Shares(s1, left, rest)
    ensures Common(g, rest) == 0 && Shares(s, left, Join(g, rest))
  {
    LeftIsApart(s, g, left, rest);
    NothingMissing(s, g, left, rest);
  }

  lemma LeftIsApart(s: Bits, g: Bits, left: Bits, rest: Bits)
    requires left & rest == 0 && left | rest == s & !g
    ensures left & (g | rest) == 0
  {
  }

  lemma NothingMissing(s: Bits, g: Bits, left: Bits, rest: Bits)
    requires g & s == g && left | rest == s & !g
    ensures left | (g | rest) == s
  {
  }

  // ----- which bits go where -----

  /** A thread that needs all its bits is satisfied when none of them is missing, any other when
      one of them is there. */
  lemma SatisfiedMeans(w: Want, s: Bits)
    ensures w.all ==> (Satisfied(w, s) <==> Lacking(w.bits, s) == 0)
    ensures !w.all ==> (Satisfied(w, s) <==> Common(w.bits, s) != 0)
  {
    hide Common, Lacking;
    if Common(w.bits, s) == w.bits { NoneMissing(w.bits, s); }
    if Lacking(w.bits, s) == 0 { AllThere(w.bits, s); }
  }

  /** The bits of `a` that are not in `s`. */
  function Lacking(a: Bits, s: Bits): Bits {
    a & !s
  }

  lemma NoneMissing(a: Bits, s: Bits)
    requires Common(a, s) == a
    ensures Lacking(a, s) == 0
  {
    assert a & !s == (a & s) & !s;
  }

  lemma AllThere(a: Bits, s: Bits)
    requires Lacking(a, s) == 0
    ensures Common(a, s) == a
  {
    assert a == (a & s) | (a & !s);
  }

  lemma JoinIsOr(a: Bits, b: Bits)
    ensures Join(a, b) == a | b
  {
  }

  /** What is sent joins what is there, and is then split between the clearing waiters and the
      set. */
  lemma SendMeans(c: Config, st: State, bits: Bits)
    requires bits != 0
    ensures var r, s := Step(c, st, Send(bits)), st.bits | bits;
            && Shares(s, r.bits, Union(Consumed(st.waiters, s, st.phase)))
            && Disjoint(Consumed(st.waiters, s, st.phase))
  {
    hide Shares, Disjoint, Consumed, Walk, Join;
    JoinIsOr(st.bits, bits);
    ConsumedOnce(st.waiters, st.bits | bits, st.phase);
  }

  /** And every waiter is answered from the joined set, less what clearing waiters before it
      took. */
  lemma SendAnswers(c: Config, st: State, bits: Bits, i: nat)
    requires bits != 0 && Inv(st) && i < |st.waiters|
    ensures var r, t, b := Step(c, st, Send(bits)), st.waiters[i], AtTurn(st.waiters, Join(st.bits, bits), st.phase, i);
            && t in st.phase && st.phase[t].Waiting? && t in r.phase
            && (t in r.waiters <==> !Satisfied(st.phase[t].want, b))
            && r.phase[t] == if t in r.waiters then st.phase[t] else Woken(Common(st.phase[t].want.bits, b))
  {
    var t := st.waiters[i];
    assert t in st.waiters;
    WaitersApart(st);
    hide Inv, NoDup, Satisfied, Walk, AtTurn, Join, Common, Minus, Enqueue, Leave;
    WalkAnswers(st.waiters, Join(st.bits, bits), st.phase, i);
  }

  lemma WaitersApart(st: State)
    requires Inv(st)
    ensures NoDup(st.waiters)
  {
  }

  /** A thread whose condition holds takes its bits at once: with the clearing option those, and
      only those, leave the set, without it none does, and nobody else is affected. */
  lemma ReceiveMeans(c: Config, st: State, t: Thread, w: Want, wait: bool)
    requires t !in st.phase && w.bits != 0 && Satisfied(w, st.bits)
    ensures Enabled(c, st, Receive(t, w, wait))
    ensures Step(c, st, Receive(t, w, wait))
            == State(if w.clear then st.bits & !w.bits else st.bits, st.waiters, st.phase)
  {
  }

  /** The bits a pass hands out, whether or not they are cleared. */
  function HandedBy(ws: seq<Thread>, s: Bits, phase: Phases): Bits {
    if ws == [] then 0
    else
      Join(if Wakes(ws[0], s, phase) then Common(phase[ws[0]].want.bits, s) else 0,
        HandedBy(ws[1..], Spend(ws[0], s, phase), Wake(ws[0], s, phase)))
  }

  /** The bits a step hands out, those of them it hands out with the clearing option, and the
      bits it sends. */
  function Handed(st: State, e: Event): Bits {
    match e
    case Send(bits) => if bits == 0 then 0 else HandedBy(st.waiters, Join(st.bits, bits), st.phase)
    case Receive(t, want, wait) => if want.bits != 0 && Satisfied(want, st.bits) then Common(want.bits, st.bits) else 0
    case _ => 0
  }

  function Cleared(st: State, e: Event): Bits {
    match e
    case Send(bits) => if bits == 0 then 0 else Union(Consumed(st.waiters, Join(st.bits, bits), st.phase))
    case Receive(t, want, wait) => if want.clear then Handed(st, e) else 0
    case _ => 0
  }

  function Sent(e: Event): Bits {
    if e.Send? then e.bits else 0
  }

  function HandedIn(c: Config, st: State, es: seq<Event>): Bits
    requires Runnable(c, st, es)
    decreases |es|
  {
    if es == [] then 0 else Join(Handed(st, es[0]), HandedIn(c, Step(c, st, es[0]), es[1..]))
  }

  function SentIn(es: seq<Event>): Bits {
    if es == [] then 0 else Join(Sent(es[0]), SentIn(es[1..]))
  }

  lemma {:induction false} HandedWithin(ws: seq<Thread>, s: Bits, phase: Phases)
    ensures Within(HandedBy(ws, s, phase), s)
    decreases |ws|
  {
    hide Satisfied, Wake, Spend, Within, Join;
    if ws == [] {
      NothingWithin(s);
    } else {
      var s1 := Spend(ws[0], s, phase);
      HandedWithin(ws[1..], s1, Wake(ws[0], s, phase));
      SpendShrinks(ws[0], s, phase);
      WithinWithin(HandedBy(ws[1..], s1, Wake(ws[0], s, phase)), s1, s);
      var first := if Wakes(ws[0], s, phase) then Common(phase[ws[0]].want.bits, s) else 0;
      if Wakes(ws[0], s, phase) { PartWithin(phase[ws[0]].want.bits, s); } else { NothingWithin(s); }
      JoinWithin(first, HandedBy(ws[1..], s1, Wake(ws[0], s, phase)), s);
    }
  }

  lemma NothingWithin(s: Bits)
    ensures Within(0, s)
  {
  }

  lemma PartWithin(w: Bits, s: Bits)
    ensures Within(Common(w, s), s)
  {
  }

  lemma JoinWithin(a: Bits, b: Bits, s: Bits)
    requires Within(a, s) && Within(b, s)
    ensures Within(Join(a, b), s)
  {
  }

  /** Within one pass, what a clearing waiter takes goes to nobody behind it. */
  lemma TakenFromLater(ws: seq<Thread>, s: Bits, phase: Phases)
    requires ws != [] && Wakes(ws[0], s, phase) && phase[ws[0]].want.clear
    ensures phase[ws[0]].want.bits & HandedBy(ws[1..], Spend(ws[0], s, phase), Wake(ws[0], s, phase)) == 0
  {
    hide Satisfied, Wake;
    var w, s1 := phase[ws[0]].want.bits, Spend(ws[0], s, phase);
    HandedWithin(ws[1..], s1, Wake(ws[0], s, phase));
    Missing(w, s, HandedBy(ws[1..], s1, Wake(ws[0], s, phase)));
  }

  lemma Missing(w: Bits, s: Bits, h: Bits)
    requires Within(h, Minus(s, Common(w, s)))
    ensures w & h == 0
  {
  }

  /** What a step hands out was there or is sent by it, and so is what is left afterwards; what
      it cleared is not left. */
  lemma StepHands(c: Config, st: State, e: Event)
    requires Enabled(c, st, e)
    ensures Within(Handed(st, e), Join(st.bits, Sent(e))) && Within(Step(c, st, e).bits, Join(st.bits, Sent(e)))
    ensures Common(Cleared(st, e), Step(c, st, e).bits) == 0
  {
    hide Within, Join, Common, Minus, Satisfied, Walk, HandedBy, Consumed, Union, Enqueue, Leave;
    Alone(st.bits);
    NothingWithin(st.bits);
    ZeroCommon(Step(c, st, e).bits);
    match e
    case Send(bits) => if bits != 0 { SendHands(st.waiters, Join(st.bits, bits), st.phase); }
    case Receive(t, want, wait) => if want.bits != 0 { TakeHands(c, st, e); }
    case Reset =>
    case Return(t) =>
    case Expire(t) =>
  }

  lemma TakeHands(c: Config, st: State, e: Event)
    requires Enabled(c, st, e) && e.Receive? && e.want.bits != 0
    ensures Within(Handed(st, e), Join(st.bits, 0)) && Within(Step(c, st, e).bits, Join(st.bits, 0))
    ensures Common(Cleared(st, e), Step(c, st, e).bits) == 0
  {
    hide Within, Join, Common, Minus, Satisfied, Enqueue;
    Alone(st.bits);
    ZeroCommon(st.bits);
    ReceiveHands(e.want.bits, st.bits);
  }

  lemma SendHands(ws: seq<Thread>, s: Bits, phase: Phases)
    ensures Within(HandedBy(ws, s, phase), s) && Within(Walk(ws, s, phase).bits, s)
    ensures Common(Union(Consumed(ws, s, phase)), Walk(ws, s, phase).bits) == 0
  {
    hide Within, Common, Walk, HandedBy, Consumed, Union, Shares;
    HandedWithin(ws, s, phase);
    WalkShrinks(ws, s, phase);
    ConsumedOnce(ws, s, phase);
    Apart(s, Walk(ws, s, phase).bits, Union(Consumed(ws, s, phase)));
  }

  lemma ReceiveHands(w: Bits, s: Bits)
    ensures Within(Common(w, s), s) && Within(Minus(s, w), s) && Common(Common(w, s), Minus(s, w)) == 0
  {
  }

  /** A set with nothing sent to it. */
  lemma Alone(s: Bits)
    ensures Join(s, 0) == s && Within(s, s) && Within(0, s)
  {
  }

  lemma ZeroCommon(s: Bits)
    ensures Common(0, s) == 0
  {
  }

  lemma Apart(s: Bits, left: Bits, rest: Bits)
    requires Shares(s, left, rest)
    ensures Common(rest, left) == 0
  {
  }

  lemma {:induction false} RunHands(c: Config, st: State, es: seq<Event>)
    requires Runnable(c, st, es)
    ensures Within(HandedIn(c, st, es), Join(st.bits, SentIn(es)))
    decreases |es|
  {
    hide Within, Handed, Step, Enabled, Join;
    if es == [] {
      NothingWithin(Join(st.bits, SentIn(es)));
    } else {
      var st1 := Step(c, st, es[0]);
      StepHands(c, st, es[0]);
      RunHands(c, st1, es[1..]);
      OneMore(st.bits, Sent(es[0]), SentIn(es[1..]), Handed(st, es[0]), HandedIn(c, st1, es[1..]), st1.bits);
    }
  }

  lemma OneMore(s: Bits, sent: Bits, later: Bits, h: Bits, hs: Bits, s1: Bits)
    requires Within(h, Join(s, sent)) && Within(s1, Join(s, sent)) && Within(hs, Join(s1, later))
    ensures Within(Join(h, hs), Join(s, Join(sent, later)))
  {
  }

  /** Over any run, with any mix of waiters: a bit handed out with the clearing option is handed
      out to nobody again until it is sent again. */
  lemma ClearedUntilSent(c: Config, st: State, e: Event, es: seq<Event>)
    requires Enabled(c, st, e) && Runnable(c, Step(c, st, e), es)
    ensures Cleared(st, e) & HandedIn(c, Step(c, st, e), es) & !SentIn(es) == 0
  {
    hide Step, Cleared, HandedIn, SentIn, Within, Common, Join;
    StepHands(c, st, e);
    RunHands(c, Step(c, st, e), es);
    OnlySent(Cleared(st, e), Step(c, st, e).bits, SentIn(es), HandedIn(c, Step(c, st, e), es));
  }

  lemma OnlySent(g: Bits, s: Bits, sent: Bits, h: Bits)
    requires Common(g, s) == 0 && Within(h, Join(s, sent))
    ensures g & h & !sent == 0
  {
  }

  // ----- the event object in place -----

  /** The wait list's head node, which is no thread. */
  const LIST: int := -1

  const FLAG_AND: bv8 := 1
  const FLAG_OR: bv8 := 2
  const FLAG_CLEAR: bv8 := 4

  /** What a thread's event_set and event_info say it waits for. */
  function WantOf(eventSet: Bits, option: bv8): Want {
    Want(eventSet, option & FLAG_AND != 0, option & FLAG_CLEAR != 0)
  }

  /** The threads' event fields agree with their phases. */
  ghost predicate Recorded(phase: Phases, eventSet: map<Thread, Bits>, eventInfo: map<Thread, bv8>) {
    forall t {:trigger phase[t]} {:trigger t in phase} :: t in phase ==>
      && t != LIST
      && (phase[t].Waiting? ==> t in eventSet && t in eventInfo && phase[t].want == WantOf(eventSet[t], eventInfo[t])
                                && eventInfo[t] & (FLAG_AND | FLAG_OR) != 0)
      && (phase[t].Woken? ==> t in eventSet && phase[t].received == eventSet[t])
  }

  /** What a step does to the error fields of the threads. */
  function Errors(st: State, e: Event, error: map<Thread, Error>): map<Thread, Error> {
    match e
    case Receive(t, want, wait) =>
      if want.bits == 0 then error
      else error[t := if Satisfied(want, st.bits) || wait then EOK else ETIMEOUT]
    case Expire(t) => error[t := ETIMEOUT]
    case Reset => SetErrors(error, st.waiters, ERROR)
    case _ => error
  }

  /** A thread finds out from its error field why it was resumed. */
  ghost predicate Told(phase: Phases, error: map<Thread, Error>) {
    forall t {:trigger phase[t]} :: t in phase ==>
      && t in error && (!phase[t].Failed? ==> error[t] == EOK)
      && (phase[t].Failed? ==> error[t] == phase[t].error && phase[t].error != EOK)
  }

  lemma {:induction false} WalkTold(ws: seq<Thread>, s: Bits, phase: Phases, error: map<Thread, Error>)
    requires Told(phase, error)
    ensures Told(Walk(ws, s, phase).phase, error)
    decreases |ws|
  {
    hide Satisfied, Common, Spend;
    if ws != [] {
      var phase1 := Wake(ws[0], s, phase);
      assert Told(phase1, error);
      WalkTold(ws[1..], Spend(ws[0], s, phase), phase1, error);
    }
  }

  lemma StepTold(c: Config, st: State, e: Event, error: map<Thread, Error>)
    requires Enabled(c, st, e) && Inv(st) && Told(st.phase, error)
    ensures Told(Step(c, st, e).phase, Errors(st, e, error))
  {
    hide NoDup, Enqueue, Leave, Satisfied, Quiet, Walk, Minus;
    match e
    case Send(bits) => WalkTold(st.waiters, Join(st.bits, bits), st.phase, error);
    case _ =>
  }

  class EventObject {
    const c: Config
    const suspendThread: Links
    var bits: Bits
    /** event_set and event_info of every thread. */
    var eventSet: map<Thread, Bits>
    var eventInfo: map<Thread, bv8>
    /** The error fields of the threads. */
    var error: map<Thread, Error>
    /** The state the event and the threads are in. */
    ghost var st: State

    ghost predicate Valid()
      reads this, suspendThread
    {
      && suspendThread.Holds(LIST, st.waiters) && bits == st.bits && Recorded(st.phase, eventSet, eventInfo)
      && Told(st.phase, error) && Inv(st)
    }

    /** rt_event_init. */
    constructor (c: Config)
      ensures Valid() && this.c == c && fresh(suspendThread) && st == State(0, [], map[])
    {
      this.c := c;
      var l := new Links();
      l.Init(LIST);
      suspendThread := l;
      bits, eventSet, eventInfo, error := 0, map[], map[], map[];
      st := State(0, [], map[]);
      EmptyNoDup();
    }

    /** rt_event_send. */
    method SendBits(set_: Bits) returns (ok: bool)
      requires Valid()
      modifies this, suspendThread
      ensures ok <==> set_ != 0
      ensures st == Step(c, old(st), Send(set_)) && Valid()
      ensures !ok ==> st == old(st)
      ensures ok ==> var s := old(bits) | set_; Shares(s, bits, Union(Consumed(old(st).waiters, s, old(st).phase)))
    {
      hide Inv, NoDup, Join, Told, Consumed, Union, Shares;
      if set_ == 0 { return false; }
      ghost var st0 := st;
      SendMeans(c, st, set_);
      StepInv(c, st, Send(set_));
      StepTold(c, st, Send(set_), error);
      bits := Join(bits, set_);
      WalkList();
      st := Step(c, st0, Send(set_));
      ok := true;
    }

    /** The loop of rt_event_send over the wait list. */
    method WalkList()
      requires suspendThread.Holds(LIST, st.waiters) && Recorded(st.phase, eventSet, eventInfo) && Inv(st)
      modifies `bits, `eventSet, suspendThread
      ensures var r := Walk(st.waiters, old(bits), st.phase);
              suspendThread.Holds(LIST, r.waiters) && bits == r.bits && Recorded(r.phase, eventSet, eventInfo)
    {
      hide NoDup, Wakes, Wake, Spend, Recorded, Ring, Quiet, Walk, StillWait, Waiters;
      ghost var ws, kept: seq<Thread>, k: nat, phase := st.waiters, [], 0, st.phase;
      AllWait(ws, phase, eventSet, eventInfo);
      assert ws[0..] == ws && [] + ws == ws;
      assert [] + Walk(ws, bits, phase).waiters == Walk(ws, bits, phase).waiters;
      var n := First(ws);
      while n != LIST
        invariant k <= |ws| && suspendThread.Holds(LIST, kept + ws[k..]) && Recorded(phase, eventSet, eventInfo)
        invariant n == Right(ws, k, LIST) && StillWait(ws, k, phase)
        invariant Walk(ws, old(bits), st.phase) == Behind(kept, Walk(ws[k..], bits, phase))
        decreases |ws| - k
      {
        n, kept, phase := Turn(n, kept, ws, k, phase);
        k := k + 1;
      }
      NobodyLeft(ws, k, phase, bits);
      assert kept + [] == kept;
    }

    /** One waiter's turn, and a look at the next one. */
    method Turn(thread: Thread, ghost kept: seq<Thread>, ghost ws: seq<Thread>, ghost k: nat, ghost phase: Phases)
        returns (n: int, ghost kept': seq<Thread>, ghost phase': Phases)
      requires k <= |ws| && suspendThread.Holds(LIST, kept + ws[k..]) && Recorded(phase, eventSet, eventInfo)
      requires thread == Right(ws, k, LIST) && StillWait(ws, k, phase) && thread != LIST
      modifies `bits, `eventSet, suspendThread
      ensures k < |ws| && suspendThread.Holds(LIST, kept' + ws[k + 1..]) && Recorded(phase', eventSet, eventInfo)
      ensures n == Right(ws, k + 1, LIST) && StillWait(ws, k + 1, phase')
      ensures Behind(kept, Walk(ws[k..], old(bits), phase)) == Behind(kept', Walk(ws[k + 1..], bits, phase'))
    {
      hide NoDup, Wakes, Wake, Spend, Recorded, Ring, Walk, StillWait;
      ghost var s := bits;
      WaitsAt(ws, k, phase);
      n := Next(thread, kept, ws, k);
      var woken := Offer(thread, phase);
      kept', phase' := kept, Wake(thread, s, phase);
      LaterWait(ws, k, s, phase);
      WalkOn(ws, k, kept, s, phase);
      if woken {
        Resume(thread, kept, ws, k);
      } else {
        assert kept + ws[k..] == (kept + [thread]) + ws[k + 1..];
        kept' := kept + [thread];
      }
    }

    method First(ghost ws: seq<Thread>) returns (n: int)
      requires suspendThread.Holds(LIST, ws)
      ensures n == Right(ws, 0, LIST)
    {
      ChainNeighbours(suspendThread.next, suspendThread.prev, LIST, ws, LIST, 0);
      n := suspendThread.next[LIST];
    }

    method Next(thread: Thread, ghost kept: seq<Thread>, ghost ws: seq<Thread>, ghost k: nat) returns (n: int)
      requires k < |ws| && suspendThread.Holds(LIST, kept + ws[k..]) && thread == ws[k]
      ensures n == Right(ws, k + 1, LIST)
    {
      ChainNeighbours(suspendThread.next, suspendThread.prev, LIST, kept + ws[k..], LIST, |kept| + 1);
      n := suspendThread.next[thread];
    }

    /** rt_thread_resume takes the thread off the wait list. */
    method Resume(thread: Thread, ghost kept: seq<Thread>, ghost ws: seq<Thread>, ghost k: nat)
      requires k < |ws| && suspendThread.Holds(LIST, kept + ws[k..]) && thread == ws[k]
      modifies suspendThread
      ensures suspendThread.Holds(LIST, kept + ws[k + 1..])
    {
      assert Without(kept + ws[k..], |kept|) == kept + ws[k + 1..];
      suspendThread.Remove(thread, LIST, kept + ws[k..], |kept|);
    }

    /** One thread's turn: is its condition met, what does it receive, and what is cleared? */
    method Offer(t: Thread, ghost phase: Phases) returns (woken: bool)
      requires Recorded(phase, eventSet, eventInfo) && t in phase && phase[t].Waiting?
      modifies `bits, `eventSet
      ensures woken == Wakes(t, old(bits), phase) && bits == Spend(t, old(bits), phase)
      ensures Recorded(Wake(t, old(bits), phase), eventSet, eventInfo)
    {
      hide Common, Minus;
      woken := false;
      if eventInfo[t] & FLAG_AND != 0 {
        if Common(eventSet[t], bits) == eventSet[t] { woken := true; }
      } else if eventInfo[t] & FLAG_OR != 0 {
        if Common(eventSet[t], bits) != 0 {
          eventSet := eventSet[t := Common(eventSet[t], bits)];
          woken := true;
        }
      }
      if woken {
        if eventInfo[t] & FLAG_CLEAR != 0 { bits := Minus(bits, eventSet[t]); }
      }
    }

    /** rt_event_recv up to the point where the thread returns or is suspended. */
    method Recv(t: Thread, set_: Bits, option: bv8, wait: bool) returns (received: Bits, status: Status)
      requires Valid() && t !in st.phase && t != LIST && option & (FLAG_AND | FLAG_OR) != 0
      modifies this, suspendThread
      ensures var w := WantOf(set_, option);
              && st == Step(c, old(st), Receive(t, w, wait))
              && (status == Invalid <==> set_ == 0)
              && (status == Received <==> set_ != 0 && Satisfied(w, old(bits)))
              && (status == Suspended <==> set_ != 0 && !Satisfied(w, old(bits)) && wait)
              && (status == Suspended ==>
                   st == State(old(bits), Enqueue(old(st).waiters, t, c.prio, c.flag), old(st).phase[t := Waiting(w)]))
      ensures status == Received ==>
                received == set_ & old(bits) && st.waiters == old(st).waiters && st.phase == old(st).phase
                && bits == if option & FLAG_CLEAR != 0 then old(bits) & !set_ else old(bits)
      ensures status == TimedOut ==> t in error && error[t] == ETIMEOUT
      ensures status == TimedOut || status == Invalid ==> st == old(st)
      ensures Valid()
    {
      hide Inv, NoDup, Enqueue, Ring, Common, Minus, Told, Satisfied, Recorded;
      TakenIs(set_, bits);
      received := 0;
      if set_ == 0 { return received, Invalid; }
      ghost var st0, e := st, Receive(t, WantOf(set_, option), wait);
      StepInv(c, st, e);
      StepTold(c, st, e, error);
      NotWaiting(st, t);
      error := error[t := EOK];
      EnqueueMembers(st.waiters, t, c.prio, c.flag);
      var met := Met(set_, option);
      if met {
        status := Received;
        received := Common(bits, set_);
        CommonCommutes(bits, set_);
        if option & FLAG_CLEAR != 0 { bits := Minus(bits, set_); }
      } else if !wait {
        status := TimedOut;
        error := error[t := ETIMEOUT];
      } else {
        WaitFor(t, set_, option);
        status := Suspended;
      }
      assert error == Errors(st0, e, old(error));
      st := Step(c, st0, e);
    }

    /** Fill in the thread's event fields and put it on the wait list. */
    method WaitFor(t: Thread, set_: Bits, option: bv8)
      requires t != LIST && t !in st.waiters && option & (FLAG_AND | FLAG_OR) != 0
      requires suspendThread.Holds(LIST, st.waiters) && Recorded(st.phase, eventSet, eventInfo)
      modifies `eventSet, `eventInfo, suspendThread
      ensures suspendThread.Holds(LIST, Enqueue(st.waiters, t, c.prio, c.flag))
      ensures Recorded(st.phase[t := Waiting(WantOf(set_, option))], eventSet, eventInfo)
    {
      hide Ring, Enqueue;
      eventSet := eventSet[t := set_];
      eventInfo := eventInfo[t := option];
      Suspend(suspendThread, LIST, t, c.prio, c.flag, st.waiters);
    }

    /** The test in rt_event_recv. */
    method Met(set_: Bits, option: bv8) returns (met: bool)
      requires option & (FLAG_AND | FLAG_OR) != 0
      ensures met == Satisfied(WantOf(set_, option), bits)
    {
      hide Common;
      CommonCommutes(bits, set_);
      met := false;
      if option & FLAG_AND != 0 {
        met := Common(bits, set_) == set_;
      } else if option & FLAG_OR != 0 {
        met := Common(bits, set_) != 0;
      }
    }

    /** The end of rt_event_recv for a thread that was resumed: it returns its error, or reads
        what it received from its own event_set. */
    method Resumed(t: Thread) returns (e: Error, received: Bits)
      requires Valid() && Enabled(c, st, Return(t))
      modifies `st
      ensures st == Step(c, old(st), Return(t)) && Valid()
      ensures st == State(old(bits), old(st).waiters, old(st).phase - {t})
      ensures e == EOK <==> old(st).phase[t].Woken?
      ensures old(st).phase[t] == if e == EOK then Woken(received) else Failed(e)
    {
      hide Inv, Ring;
      StepInv(c, st, Return(t));
      e, received := error[t], 0;
      if e == EOK { received := eventSet[t]; }
      st := Step(c, st, Return(t));
    }

    /** The timer of a suspended thread expires: it leaves the wait list. */
    method Timeout(t: Thread)
      requires Valid() && Enabled(c, st, Expire(t))
      modifies `error, `st, suspendThread
      ensures st == Step(c, old(st), Expire(t)) && Valid()
      ensures bits == old(bits) && st.phase == old(st).phase[t := Failed(ETIMEOUT)] && t !in st.waiters
    {
      hide Inv, Ring, Told, Leave;
      StepInv(c, st, Expire(t));
      StepTold(c, st, Expire(t), error);
      OnList(st, t);
      GoneFrom(st, t);
      error := error[t := ETIMEOUT];
      Withdraw(suspendThread, t, LIST, st.waiters);
      st := Step(c, st, Expire(t));
    }

    /** rt_event_control with the reset command. */
    method Reset()
      requires Valid()
      modifies `bits, `error, `st, suspendThread
      ensures st == Step(c, old(st), Event.Reset) && Valid()
      ensures bits == 0 && st.waiters == [] && AllFailed(old(st).phase, old(st).waiters, Failed(ERROR), st.phase)
    {
      hide Inv, NoDup, Ring, Told, SetErrors;
      StepInv(c, st, Event.Reset);
      StepTold(c, st, Event.Reset, error);
      error := ResumeAll(suspendThread, LIST, error, st.waiters);
      bits := 0;
      st := Step(c, st, Event.Reset);
    }
  }

  datatype Status = Invalid | Received | TimedOut | Suspended

  lemma TakenIs(w: Bits, s: Bits)
    ensures Common(s, w) == w & s && Minus(s, w) == s & !w
  {
  }

  lemma CommonCommutes(a: Bits, b: Bits)
    ensures Common(a, b) == Common(b, a)
  {
  }

  lemma NotWaiting(st: State, t: Thread)
    requires Inv(st) && t !in st.phase
    ensures t !in st.waiters
  {
  }

  /** The waiters from position `k` on are all still waiting, and none of them is the head. */
  ghost predicate StillWait(ws: seq<Thread>, k: nat, phase: Phases) {
    NoDup(ws) && forall i {:trigger ws[i]} :: k <= i < |ws| ==> ws[i] != LIST && ws[i] in phase && phase[ws[i]].Waiting?
  }

  lemma AllWait(ws: seq<Thread>, phase: Phases, eventSet: map<Thread, Bits>, eventInfo: map<Thread, bv8>)
    requires Waiters(ws, phase) && Recorded(phase, eventSet, eventInfo)
    ensures StillWait(ws, 0, phase)
  {
    hide NoDup;
    forall i {:trigger ws[i]} | 0 <= i < |ws| ensures ws[i] != LIST && ws[i] in phase && phase[ws[i]].Waiting? {
      var t := ws[i];
      assert t in ws;
    }
  }

  lemma WaitsAt(ws: seq<Thread>, k: nat, phase: Phases)
    requires StillWait(ws, k, phase) && k <= |ws| && Right(ws, k, LIST) != LIST
    ensures k < |ws| && ws[k] == Right(ws, k, LIST) && ws[k] in phase && phase[ws[k]].Waiting?
  {
  }

  lemma LaterWait(ws: seq<Thread>, k: nat, s: Bits, phase: Phases)
    requires StillWait(ws, k, phase) && k < |ws|
    ensures StillWait(ws, k + 1, Wake(ws[k], s, phase))
  {
    hide NoDup, Satisfied;
    var w := ws[k];
    WakeOne(w, s, phase);
    forall i {:trigger ws[i]} | k + 1 <= i < |ws|
      ensures ws[i] != LIST && ws[i] in Wake(w, s, phase) && Wake(w, s, phase)[ws[i]].Waiting?
    {
      Distinct(ws, k, i);
      assert Same(ws[i], phase, Wake(w, s, phase));
    }
  }

  /** A pass over the rest of the list, with the waiters kept so far in front. */
  function Behind(kept: seq<Thread>, r: State): State {
    r.(waiters := kept + r.waiters)
  }

  /** One more position of the walk, with the waiters kept so far in front. */
  lemma WalkOn(ws: seq<Thread>, k: nat, kept: seq<Thread>, s: Bits, phase: Phases)
    requires k < |ws|
    ensures var w := ws[k];
            Behind(kept, Walk(ws[k..], s, phase))
            == Behind(if Wakes(w, s, phase) then kept else kept + [w],
                 Walk(ws[k + 1..], Spend(w, s, phase), Wake(w, s, phase)))
  {
    hide Wakes, Spend, Wake;
    var w, r := ws[k], Walk(ws[k..], s, phase);
    assert ws[k..][0] == w && ws[k..][1..] == ws[k + 1..];
    var r1 := Walk(ws[k + 1..], Spend(w, s, phase), Wake(w, s, phase));
    assert kept + ([w] + r1.waiters) == (kept + [w]) + r1.waiters;
  }

  lemma NobodyLeft(ws: seq<Thread>, k: nat, phase: Phases, s: Bits)
    requires StillWait(ws, k, phase) && k <= |ws| && Right(ws, k, LIST) == LIST
    ensures k == |ws| && ws[k..] == [] && Walk(ws[k..], s, phase) == State(s, [], phase)
  {
  }

  lemma GoneFrom(st: State, t: Thread)
    requires Inv(st)
    ensures t !in Leave(st.waiters, t)
  {
    LeaveMembers(st.waiters, t);
  }

  lemma OnList(st: State, t: Thread)
    requires Inv(st) && t in st.phase && st.phase[t].Waiting?
    ensures t in st.waiters
  {
  }
}
