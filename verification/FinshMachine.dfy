/** The finsh stack machine: its opcodes, one instruction, a whole run, and the fetch and
    dispatch loop over the text segment. */
module FinshMachine {
  import opened Basics
  import opened FinshWords
  import opened FinshSyntax

  const TEXT_MAX: nat := 128
  const STACK_MAX: nat := 64
  const PARAMETER_MAX: nat := 16

  // ----- opcodes -----

  const OP_NOOP: byte := 0x00
  const OP_LD_BYTE: byte := 0x22
  const OP_LD_WORD: byte := 0x23
  const OP_LD_DWORD: byte := 0x24
  const OP_LD_VALUE_BYTE: byte := 0x25
  const OP_LD_VALUE_DWORD: byte := 0x27
  const OP_ST_BYTE: byte := 0x28
  const OP_ST_DWORD: byte := 0x2A
  const OP_POP: byte := 0x2B
  const OP_SYSCALL: byte := 0x2C
  const OP_LD_VALUE_BYTE_STACK: byte := 0x2D
  const OP_LD_VALUE_DWORD_STACK: byte := 0x2F
  const OP_BITWISE_BYTE: byte := 0x19
  const OP_BITWISE_DWORD: byte := 0x1B

  /** The byte-wide opcode of an operator; the word and dword ones follow it. */
  function ByteOpcode(op: BinOp): (code: byte)
    ensures code < 0x20
  {
    match op
    case Add => 0x01
    case Sub => 0x04
    case Div => 0x07
    case Mod => 0x0A
    case Mul => 0x0D
    case And => 0x10
    case Or => 0x13
    case Xor => 0x16
    case Shl => 0x1C
    case Shr => 0x1F
  }

  function DwordOpcode(op: BinOp): byte {
    ByteOpcode(op) + 2
  }

  function DwordOperator(code: byte): Option<BinOp> {
    if code == 0x03 then Some(Add)
    else if code == 0x06 then Some(Sub)
    else if code == 0x09 then Some(Div)
    else if code == 0x0C then Some(Mod)
    else if code == 0x0F then Some(Mul)
    else if code == 0x12 then Some(And)
    else if code == 0x15 then Some(Or)
    else if code == 0x18 then Some(Xor)
    else if code == 0x1E then Some(Shl)
    else if code == 0x21 then Some(Shr)
    else None
  }

  // ----- one instruction -----

  /** A text segment, the two stack bounds, and the outside world. The real machine has
      floor 0 and limit STACK_MAX; tighter bounds say how far a run moves the stack. */
  datatype Machine = Machine(text: seq<byte>, floor: nat, limit: nat, sys: Sys)

  datatype State = State(pc: nat, stack: seq<word>, store: Store)

  /** `Crash` stands for everything C leaves undefined: a stack access outside the bounds,
      an unmapped address, an undefined operator, an operand fetched past the text, an
      opcode outside the table (and the byte and word opcodes, which are not modelled). */
  datatype Outcome = Crash | At(state: State)

  function Push(mc: Machine, s: State, pc: nat, w: word): (o: Outcome) {
    if |s.stack| < mc.limit then At(State(pc, s.stack + [w], s.store)) else Crash
  }

  function Top(s: State): word
    requires |s.stack| >= 1
  {
    s.stack[|s.stack| - 1]
  }

  function Under(s: State): word
    requires |s.stack| >= 2
  {
    s.stack[|s.stack| - 2]
  }

  function Drop(s: State, n: nat): seq<word>
    requires n <= |s.stack|
  {
    s.stack[..|s.stack| - n]
  }

  function Fetch32(text: seq<byte>, pc: nat): Option<word> {
    if pc + 4 <= |text| then Some(Word32(text[pc], text[pc + 1], text[pc + 2], text[pc + 3]))
    else None
  }

  /** Fetch the opcode at `pc` and run it. */
  function Exec(mc: Machine, s: State): (o: Outcome)
    requires s.pc < |mc.text|
    ensures o.At? ==> s.pc < o.state.pc
  {
    var op := mc.text[s.pc];
    var pc := s.pc + 1;
    var depth := |s.stack| - mc.floor;
    if op == OP_NOOP then At(s.(pc := pc))
    else if DwordOperator(op).Some? then
      if depth < 2 then Crash
      else
        var r := Apply(DwordOperator(op).value, Under(s), Top(s));
        if r.None? then Crash else At(State(pc, Drop(s, 2) + [r.value], s.store))
    else if op == OP_BITWISE_DWORD then
      if depth < 1 then Crash else At(State(pc, Drop(s, 1) + [Complement(Top(s))], s.store))
    else if op == OP_LD_DWORD then
      var w := Fetch32(mc.text, pc);
      if w.None? then Crash else Push(mc, s, pc + 4, w.value)
    else if op == OP_LD_VALUE_DWORD then
      var a := Fetch32(mc.text, pc);
      if a.None? || Load(s.store, a.value).None? then Crash
      else Push(mc, s, pc + 4, Load(s.store, a.value).value)
    else if op == OP_ST_DWORD then
      if depth < 2 || Save(s.store, Under(s), Top(s)).None? then Crash
      else At(State(pc, Drop(s, 1), Save(s.store, Under(s), Top(s)).value))
    else if op == OP_LD_VALUE_DWORD_STACK then
      if depth < 1 || Load(s.store, Top(s)).None? then Crash
      else At(State(pc, Drop(s, 1) + [Load(s.store, Top(s)).value], s.store))
    else if op == OP_POP then
      if depth < 1 then Crash else At(State(pc, Drop(s, 1), s.store))
    else if op == OP_SYSCALL then
      if pc >= |mc.text| then Crash
      else
        var n := mc.text[pc];
        if n > PARAMETER_MAX || depth < n + 1 then Crash
        else
          var base := |s.stack| - n - 1;
          var (r, m) := mc.sys(s.stack[base], s.stack[base + 1..], s.store);
          At(State(pc + 1, s.stack[..base] + [r], m))
    else Crash
  }

  /** Run until the program counter leaves the text segment. */
  function Run(mc: Machine, s: State): Outcome
    decreases |mc.text| - s.pc
  {
    if s.pc >= |mc.text| then At(s)
    else
      match Exec(mc, s)
      case Crash => Crash
      case At(s') => Run(mc, s')
  }

  /** `run` obeys the fetch and dispatch equation at every state inside the text. The
      compiler's theorem is about any such function; `Run` is one. */
  ghost predicate IsRunOf(run: State -> Outcome, mc: Machine) {
    forall s: State {:trigger Exec(mc, s)} :: s.pc < |mc.text| ==>
      run(s) == match Exec(mc, s) case Crash => Crash case At(s') => run(s')
  }

  lemma RunIsRun(mc: Machine)
    ensures IsRunOf(s => Run(mc, s), mc)
  {
  }

  // ----- code in place -----

  /** `code` lies in the text at `p`. */
  predicate Placed(text: seq<byte>, p: nat, code: seq<byte>) {
    p + |code| <= |text| && forall k {:trigger code[k]} :: 0 <= k < |code| ==> text[p + k] == code[k]
  }

  lemma PlacedSplit(text: seq<byte>, p: nat, a: seq<byte>, b: seq<byte>)
    requires Placed(text, p, a + b)
    ensures Placed(text, p, a) && Placed(text, p + |a|, b)
  {
    var c := a + b;
    forall k | 0 <= k < |a| ensures text[p + k] == a[k] { assert c[k] == a[k]; }
    forall k | 0 <= k < |b| ensures text[p + |a| + k] == b[k] { assert c[|a| + k] == b[k]; }
  }

  lemma PlacedAt(text: seq<byte>, p: nat, code: seq<byte>, k: nat)
    requires Placed(text, p, code) && k < |code|
    ensures text[p + k] == code[k]
  {
  }

  lemma FetchPlaced(text: seq<byte>, p: nat, op: byte, w: word)
    requires Placed(text, p, [op] + Bytes32(w))
    ensures text[p] == op && Fetch32(text, p + 1) == Some(w)
  {
    var code := [op] + Bytes32(w);
    forall k | 0 <= k < 5 ensures text[p + k] == code[k] { PlacedAt(text, p, code, k); }
    assert text[p] == code[0] && text[p + 1] == code[1] && text[p + 2] == code[2]
        && text[p + 3] == code[3] && text[p + 4] == code[4];
    WordRoundTrip(w);
  }

  // ----- the machine in place -----

  class Vm {
    const sys: Sys
    const text: array<byte>
    const stack: array<word>
    var sp: nat
    var pc: nat
    var store: Store

    ghost predicate Valid()
      reads this
    {
      text.Length == TEXT_MAX && stack.Length == STACK_MAX && sp <= STACK_MAX
    }

    ghost function Abs(): State
      requires Valid()
      reads this, stack
    {
      State(pc, stack[..sp], store)
    }

    ghost function Here(): Machine
      reads text
    {
      Machine(text[..], 0, STACK_MAX, sys)
    }

    constructor (sys: Sys, store: Store)
      ensures Valid() && this.sys == sys && this.store == store && sp == 0 && pc == 0
      ensures fresh(text) && fresh(stack)
      ensures text[..] == seq(TEXT_MAX, _ => 0)
    {
      this.sys := sys;
      this.store := store;
      text := new byte[TEXT_MAX](_ => 0);
      stack := new word[STACK_MAX](_ => 0);
      sp, pc := 0, 0;
    }

    method Fetch() returns (w: Option<word>)
      requires Valid()
      modifies `pc
      ensures Valid() && w == Fetch32(text[..], old(pc))
      ensures w.Some? ==> pc == old(pc) + 4
    {
      if pc + 4 > text.Length { return None; }
      w := Some(Word32(text[pc], text[pc + 1], text[pc + 2], text[pc + 3]));
      pc := pc + 4;
    }

    method PushWord(w: word) returns (ok: bool)
      requires Valid()
      modifies `sp, stack
      ensures Valid() && ok == (old(sp) < STACK_MAX)
      ensures ok ==> stack[..sp] == old(stack[..sp]) + [w]
    {
      if sp == stack.Length { return false; }
      stack[sp] := w;
      sp := sp + 1;
      return true;
    }

    method Operate(op: BinOp) returns (ok: bool)
      requires Valid()
      modifies `sp, stack
      ensures Valid()
      ensures ok == (old(sp) >= 2
                 && Apply(op, old(stack[sp - 2]), old(stack[sp - 1])).Some?)
      ensures ok ==> stack[..sp] == old(stack[..sp - 2])
                                 + [Apply(op, old(stack[sp - 2]), old(stack[sp - 1])).value]
    {
      if sp < 2 { return false; }
      var r := Apply(op, stack[sp - 2], stack[sp - 1]);
      if r.None? { return false; }
      stack[sp - 2] := r.value;
      sp := sp - 1;
      return true;
    }

    /** OP_call: the parameters are taken off the stack last one first. */
    method CallOut() returns (ok: bool)
      requires Valid()
      modifies this, stack
      ensures Valid()
      ensures var n := if old(pc) < TEXT_MAX then text[old(pc)] else 0;
              && (ok <==> old(pc) < TEXT_MAX && n <= PARAMETER_MAX && n + 1 <= old(sp))
              && (ok ==> var base := old(sp) - n - 1;
                         var (r, m) := sys(old(stack[base]), old(stack[base + 1..sp]), old(store));
                         pc == old(pc) + 1 && store == m && stack[..sp] == old(stack[..base]) + [r])
    {
      if pc >= text.Length { return false; }
      var parameters := text[pc];
      pc := pc + 1;
      if parameters > PARAMETER_MAX || sp < parameters + 1 { return false; }
      var values: array<word> := new word[PARAMETER_MAX](_ => 0);
      var i := 0;
      sp := sp - 1;
      while i < parameters
        invariant 0 <= i <= parameters && sp == old(sp) - 1 - i
        invariant stack[..] == old(stack[..]) && pc == old(pc) + 1 && store == old(store)
        invariant forall k :: parameters - i <= k < parameters
                    ==> values[k] == old(stack[sp - parameters + k])
      {
        values[parameters - 1 - i] := stack[sp];
        sp := sp - 1;
        i := i + 1;
      }
      ghost var base := old(sp) - parameters - 1;
      assert values[..parameters] == old(stack[base + 1..sp]);
      var (r, m) := sys(stack[sp], values[..parameters], store);
      store := m;
      stack[sp] := r;
      sp := sp + 1;
      return true;
    }

    /** Replace the top of the stack. */
    method Retop(w: word)
      requires Valid() && sp >= 1
      modifies stack
      ensures stack[..sp] == old(stack[..sp - 1]) + [w]
    {
      stack[sp - 1] := w;
    }

    /** OP_ld_dword and OP_ld_value_dword: push the operand, or the word it points to. */
    method LoadOperand(indirect: bool) returns (ok: bool)
      requires Valid()
      modifies this, stack
      ensures Valid() && store == old(store)
      ensures var w := Fetch32(text[..], old(pc));
              && ok == (w.Some? && (indirect ==> Load(store, w.value).Some?) && old(sp) < STACK_MAX)
              && (ok ==> pc == old(pc) + 4 && stack[..sp] == old(stack[..sp])
                         + [if indirect then Load(store, w.value).value else w.value])
    {
      var w := Fetch();
      if w.None? || (indirect && Load(store, w.value).None?) { return false; }
      ok := PushWord(if indirect then Load(store, w.value).value else w.value);
    }

    /** OP_bw_dword, OP_ld_value_dword_stack, OP_st_dword and OP_pop: no operand bytes. */
    method StackOnly(op: byte) returns (ok: bool)
      requires Valid() && 0 < pc <= TEXT_MAX && text[pc - 1] == op
      requires op in {OP_BITWISE_DWORD, OP_LD_VALUE_DWORD_STACK, OP_ST_DWORD, OP_POP}
      modifies `sp, `store, stack
      ensures Valid()
      ensures var o := Exec(Here(), old(Abs()).(pc := old(pc) - 1));
              ok == o.At? && (ok ==> o == At(Abs()))
    {
      if sp < 1 || (op == OP_ST_DWORD && sp < 2) { return false; }
      if op == OP_BITWISE_DWORD {
        Retop(Complement(stack[sp - 1]));
      } else if op == OP_LD_VALUE_DWORD_STACK {
        if Load(store, stack[sp - 1]).None? { return false; }
        Retop(Load(store, stack[sp - 1]).value);
      } else {
        if op == OP_ST_DWORD {
          if Save(store, stack[sp - 2], stack[sp - 1]).None? { return false; }
          store := Save(store, stack[sp - 2], stack[sp - 1]).value;
        }
        sp := sp - 1;
        assert stack[..sp] == old(stack[..sp])[..sp];
      }
      return true;
    }

    /** The ten operator opcodes. */
    method OperateBy(op: byte) returns (ok: bool)
      requires Valid() && 0 < pc <= TEXT_MAX && text[pc - 1] == op && DwordOperator(op).Some?
      modifies `sp, stack
      ensures Valid()
      ensures var o := Exec(Here(), old(Abs()).(pc := old(pc) - 1));
              ok == o.At? && (ok ==> o == At(Abs()))
    {
      hide Apply, DwordOperator, Complement, Load, Save;
      NoOpIsNoOperator();
      ok := Operate(DwordOperator(op).value);
    }

    /** op_table[op]() for the opcode just fetched. */
    method Dispatch(op: byte) returns (ok: bool)
      requires Valid() && 0 < pc <= TEXT_MAX && text[pc - 1] == op
      modifies this, stack
      ensures Valid()
      ensures var o := Exec(Here(), old(Abs()).(pc := old(pc) - 1));
              ok == o.At? && (ok ==> o == At(Abs()))
    {
      hide Apply, Complement, Load, Save;
      if op == OP_NOOP {
        ok := true;
      } else if DwordOperator(op).Some? {
        ok := OperateBy(op);
      } else if op == OP_LD_DWORD || op == OP_LD_VALUE_DWORD {
        ok := LoadOperand(op == OP_LD_VALUE_DWORD);
      } else if op == OP_SYSCALL {
        ok := CallOut();
      } else if op in {OP_BITWISE_DWORD, OP_LD_VALUE_DWORD_STACK, OP_ST_DWORD, OP_POP} {
        ok := StackOnly(op);
      } else {
        ok := false;
      }
    }

    /** finsh_vm_run. */
    method Execute() returns (ok: bool)
      requires Valid()
      modifies this, stack
      ensures Valid()
      ensures var o := Run(Here(), State(0, [], old(store)));
              ok == o.At? && (ok ==> o == At(Abs()))
    {
      sp, pc := 0, 0;
      ghost var start := State(0, [], store);
      while pc < text.Length
        invariant Valid() && Run(Here(), Abs()) == Run(Here(), start)
        decreases TEXT_MAX - pc
      {
        ghost var before := Abs();
        var op := text[pc];
        pc := pc + 1;
        ok := Dispatch(op);
        if !ok { return false; }
        assert Exec(Here(), before) == At(Abs());
      }
      return true;
    }
  }

  lemma NoOpIsNoOperator()
    ensures DwordOperator(OP_NOOP).None?
  {
  }
}
