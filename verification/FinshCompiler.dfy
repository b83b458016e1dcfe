/** The finsh compiler: the type check that marks each node of the tree, the walk that
    appends bytecode for it, and the proof that the bytecode computes what the expression
    means. */
module FinshCompiler {
  import opened Basics
  import opened FinshWords
  import opened FinshSyntax
  import opened FinshMachine

  // ----- the type check -----

  /** The data type a variable's type gives its node; TyUnknown is an error and gives none. */
  function DataType(ty: FinshType): nat {
    match ty
    case TyUnknown => 0
    case TyVoid => 0
    case TyChar => 1
    case TyUChar => 1
    case TyShort => 2
    case TyUShort => 2
    case _ => 3
  }

  /** The address flag handed to the first child. */
  function ChildMode(kind: Kind, isAddr: bool): bool {
    if kind == Op(SetTo) || kind == Op(PreInc) || kind == Op(PreDec) || kind == Op(GetAddr) then true
    else if kind == Op(GetValue) && isAddr then false
    else isAddr
  }

  function OwnWidth(kind: Kind, width: nat): nat {
    match kind
    case Id(s) => if s.cls.SysCall? || s.ty.TyUnknown? then width else DataType(s.ty)
    case ConstChar(_) => 1
    case Op(_) => width
    case _ => 3
  }

  /** finsh_type_check: mark every node as address or value and give it a data type. */
  function Check(t: Tree, isAddr: bool): Tree {
    match t
    case Nil => Nil
    case Node(id, kind, addr, width, child, sibling) =>
      var c := Check(child, ChildMode(kind, isAddr));
      var s := Check(sibling, false);
      var a := if kind.Id? && kind.sym.cls.SysCall? then addr else addr || isAddr;
      Node(id, kind, a, if c.Node? then c.width else OwnWidth(kind, width), c, s)
  }

  // ----- code generation -----

  /** The opcode of the given data type in a byte/word/dword triple, none for other widths. */
  function Wide(byteOp: byte, width: nat): seq<byte>
    requires byteOp < 0x30
  {
    if 1 <= width <= 3 then [(byteOp + width - 1) as byte] else []
  }

  function EmitId(s: Symbol, addr: bool): seq<byte> {
    if s.cls.SysCall? then [OP_LD_DWORD] + Bytes32(s.addr)
    else match s.ty
      case TyUnknown => []
      case TyVoid => []
      case TyVoidP => []
      case _ =>
        (if addr then [OP_LD_DWORD] else Wide(OP_LD_VALUE_BYTE, DataType(s.ty))) + Bytes32(s.addr)
  }

  /** Load the constant 1. */
  function EmitOne(width: nat): seq<byte> {
    if width == 1 then [OP_LD_BYTE, 1]
    else if width == 2 then [OP_LD_WORD, 1, 0]
    else [OP_LD_DWORD] + Bytes32(1)
  }

  /** `++` and `--`. The width decides which opcodes are used; before the prefix forms
      the address is already on the stack, and they end with a dword reload at any width. */
  function EmitStep(op: SysOp, s: Symbol, width: nat): seq<byte> {
    if !(1 <= width <= 3) then []
    else
      var up := op == PreInc || op == PostInc;
      var prefix := op == PreInc || op == PreDec;
      (if prefix then [] else [OP_LD_DWORD] + Bytes32(s.addr))
      + (Wide(OP_LD_VALUE_BYTE, width) + Bytes32(s.addr)
         + (EmitOne(width)
            + (Wide(ByteOpcode(if up then Add else Sub), width)
               + (Wide(OP_ST_BYTE, width) + [if prefix then OP_LD_VALUE_DWORD_STACK else OP_POP]))))
  }

  function SiblingCount(t: Tree): nat {
    if t.Nil? then 0 else 1 + SiblingCount(t.sibling)
  }

  /** The code of one node, after that of its operands. */
  function Emit(kind: Kind, addr: bool, width: nat, child: Tree): seq<byte> {
    match kind
    case Id(s) => EmitId(s, addr)
    case ConstChar(c) => [OP_LD_BYTE, c]
    case ConstInt(w) => [OP_LD_DWORD] + Bytes32(w)
    case ConstLong(w) => [OP_LD_DWORD] + Bytes32(w)
    case ConstPtr(w) => [OP_LD_DWORD] + Bytes32(w)
    case Op(Arith(op)) => Wide(ByteOpcode(op), width)
    case Op(BitNot) => Wide(OP_BITWISE_BYTE, width)
    case Op(Func) => if child.Nil? then [] else [OP_SYSCALL, SiblingCount(child.sibling) % 0x100]
    case Op(SetTo) =>
      if child.Node? && child.kind.Id? then
        Wide(OP_ST_BYTE, child.width) + Wide(OP_LD_VALUE_BYTE_STACK, child.width)
      else if child.Node? && child.kind == Op(GetValue) then
        Wide(OP_ST_BYTE, child.width % 16) + Wide(OP_LD_VALUE_BYTE_STACK, child.width % 16)
      else []
    case Op(GetValue) => if addr then [] else Wide(OP_LD_VALUE_BYTE_STACK, width)
    case Op(GetAddr) => []
    case Op(SysNull) => Bytes32(0)
    case Op(Cast) => []
    case Op(op) => if child.Node? && child.kind.Id? then EmitStep(op, child.kind.sym, width) else []
  }

  /** The code of a node and its operands, without its siblings. */
  function Own(t: Tree): seq<byte>
    requires t.Node?
    decreases t, 0
  {
    Code(t.child) + Emit(t.kind, t.addr, t.width, t.child)
  }

  /** finsh_compile: child, node, sibling. */
  function Code(t: Tree): seq<byte>
    decreases t, 1
  {
    if t.Nil? then [] else Own(t) + Code(t.sibling)
  }

  /** The opcodes, by number, for variables of every type: loaded as a byte, a word or a dword,
      or by their address; nothing at all for void, for pointers to it and for unknown types. */
  lemma LoadsByType(s: Symbol)
    requires !s.cls.SysCall?
    ensures EmitId(s, false)
         == if s.ty.TyUnknown? || s.ty.TyVoid? || s.ty.TyVoidP? then []
            else if s.ty.TyChar? || s.ty.TyUChar? then [0x25] + Bytes32(s.addr)
            else if s.ty.TyShort? || s.ty.TyUShort? then [0x26] + Bytes32(s.addr)
            else [0x27] + Bytes32(s.addr)
    ensures EmitId(s, true)
         == if s.ty.TyUnknown? || s.ty.TyVoid? || s.ty.TyVoidP? then [] else [0x24] + Bytes32(s.addr)
  {
  }

  /** And for `++` and `--` on a byte and on a word: load, the constant 1, add or subtract, store;
      then the forms in front reload a dword and the forms behind drop the address. */
  lemma StepsByWidth(s: Symbol, up: bool)
    ensures var a := Bytes32(s.addr);
            && EmitStep(StepOp(true, up), s, 1)
               == [0x25] + (a + ([0x22, 0x01] + ([if up then 0x01 else 0x04] + [0x28, 0x2F])))
            && EmitStep(StepOp(true, up), s, 2)
               == [0x26] + (a + ([0x23, 0x01, 0x00] + ([if up then 0x02 else 0x05] + [0x29, 0x2F])))
            && EmitStep(StepOp(false, up), s, 1)
               == ([0x24] + a) + ([0x25] + (a + ([0x22, 0x01] + ([if up then 0x01 else 0x04] + [0x28, 0x2B]))))
            && EmitStep(StepOp(false, up), s, 2)
               == ([0x24] + a) + ([0x26] + (a + ([0x23, 0x01, 0x00] + ([if up then 0x02 else 0x05] + [0x29, 0x2B]))))
  {
    hide Bytes32;
    var a := Bytes32(s.addr);
    NarrowStep(s, up, true, 1);
    NarrowStep(s, up, true, 2);
    NarrowStep(s, up, false, 1);
    NarrowStep(s, up, false, 2);
  }

  lemma NarrowStep(s: Symbol, up: bool, prefix: bool, width: nat)
    requires width == 1 || width == 2
    ensures var a, w, b := Bytes32(s.addr), width as byte, if up then 0x01 else 0x04;
            EmitStep(StepOp(prefix, up), s, width)
            == (if prefix then [] else [0x24] + a)
               + ([0x24 + w] + (a + ((if w == 1 then [0x22, 0x01] else [0x23, 0x01, 0x00])
                                     + ([(b + w - 1) as byte] + [0x27 + w, if prefix then 0x2F else 0x2B]))))
  {
    hide Bytes32;
    var a := Bytes32(s.addr);
    var one, op := EmitOne(width), Wide(ByteOpcode(if up then Add else Sub), width);
    var last := [if prefix then OP_LD_VALUE_DWORD_STACK else OP_POP];
    var st := Wide(OP_ST_BYTE, width) + last;
    assert st == [0x27 + width as byte, if prefix then 0x2F else 0x2B];
    assert Wide(OP_LD_VALUE_BYTE, width) == [0x24 + width as byte];
    assert ([0x24 + width as byte] + a) + (one + (op + st)) == [0x24 + width as byte] + (a + (one + (op + st)));
  }

  // ----- which expressions are compiled faithfully -----

  /** The data type the check gives to the tree of `e`: that of its first leaf. */
  function WidthOf(e: Expr): nat {
    match e
    case Lit(CharLit(_)) => 1
    case Lit(_) => 3
    case Var(_, s) => if s.cls.SysCall? then 0 else DataType(s.ty)
    case Bin(_, l, _) => WidthOf(l)
    case Not(a) => WidthOf(a)
    case Neg(a) => 3
    case Pos(a) => WidthOf(a)
    case Deref(a) => WidthOf(a)
    case AddrOf(a) => WidthOf(a)
    case Assign(l, _) => WidthOf(l)
    case Step(_, _, a) => WidthOf(a)
    case Call(f, _) => WidthOf(f)
  }

  /** A variable the generated code loads and stores as a dword. */
  predicate DwordVar(e: Expr) {
    e.Var? && !e.sym.cls.SysCall? && DataType(e.sym.ty) == 3 && !e.sym.ty.TyVoidP?
  }

  /** All operands are dwords, operators look at dwords, lvalues are variables or
      dereferences, and no call passes more parameters than OP_call has room for. */
  predicate Sound(e: Expr) {
    match e
    case Lit(l) => !l.CharLit?
    case Var(_, s) => s.cls.SysCall? || DwordVar(e)
    case Bin(_, l, r) => Sound(l) && Sound(r) && WidthOf(l) == 3
    case Not(a) => Sound(a) && WidthOf(a) == 3
    case Neg(a) => Sound(a)
    case Pos(a) => Sound(a)
    case Deref(a) => Sound(a) && WidthOf(a) == 3
    case AddrOf(l) => Sound(l) && (l.Var? || l.Deref?)
    case Assign(l, r) => Sound(l) && (DwordVar(l) || l.Deref?) && Sound(r)
    case Step(_, _, l) => DwordVar(l) && l.sym.cls.FinshVar?
    case Call(f, args) => Sound(f) && SoundAll(args) && args.Count() <= PARAMETER_MAX
  }

  predicate SoundAll(es: Exprs) {
    es.NoArgs? || (Sound(es.head) && SoundAll(es.tail))
  }

  /** Nodes of the tree of `e`. */
  function Nodes(e: Expr): (n: nat)
    ensures n >= 1
  {
    match e
    case Lit(_) => 1
    case Var(_, _) => 1
    case Bin(_, l, r) => 1 + Nodes(l) + Nodes(r)
    case Not(a) => 1 + Nodes(a)
    case Neg(a) => 2 + Nodes(a)
    case Pos(a) => Nodes(a)
    case Deref(a) => 1 + Nodes(a)
    case AddrOf(a) => 1 + Nodes(a)
    case Assign(l, r) => 1 + Nodes(l) + Nodes(r)
    case Step(_, _, a) => 1 + Nodes(a)
    case Call(f, args) => 1 + Nodes(f) + NodesAll(args)
  }

  function NodesAll(es: Exprs): (n: nat)
    ensures n >= es.Count()
  {
    if es.NoArgs? then 0 else Nodes(es.head) + NodesAll(es.tail)
  }

  // ----- the code of an expression, without the tree -----

  function Const(w: word): seq<byte> {
    [OP_LD_DWORD] + Bytes32(w)
  }

  function Variable(a: word): seq<byte> {
    [OP_LD_VALUE_DWORD] + Bytes32(a)
  }

  /** Load, add or subtract 1, store: the address is already on the stack. */
  function Bump(a: word, up: bool, last: byte): seq<byte> {
    Variable(a) + (Const(1) + ([DwordOpcode(if up then Add else Sub)] + ([OP_ST_DWORD] + [last])))
  }

  function ValueCode(e: Expr): seq<byte> {
    match e
    case Lit(IntLit(w)) => Const(w)
    case Lit(LongLit(w)) => Const(w)
    case Lit(CharLit(c)) => [OP_LD_BYTE, c]
    case Lit(NullLit) => Const(0)
    case Var(_, s) => if s.cls.SysCall? then Const(s.addr) else Variable(s.addr)
    case Bin(op, l, r) => ValueCode(l) + (ValueCode(r) + [DwordOpcode(op)])
    case Not(a) => ValueCode(a) + [OP_BITWISE_DWORD]
    case Neg(a) => Const(0) + (ValueCode(a) + [DwordOpcode(Sub)])
    case Pos(a) => ValueCode(a)
    case Deref(a) => ValueCode(a) + [OP_LD_VALUE_DWORD_STACK]
    case AddrOf(l) => AddressCode(l)
    case Assign(l, r) => AddressCode(l) + (ValueCode(r) + ([OP_ST_DWORD] + [OP_LD_VALUE_DWORD_STACK]))
    case Step(prefix, up, l) =>
      if !l.Var? then []
      else if prefix then Const(l.sym.addr) + Bump(l.sym.addr, up, OP_LD_VALUE_DWORD_STACK)
      else Variable(l.sym.addr) + (Const(l.sym.addr) + Bump(l.sym.addr, up, OP_POP))
    case Call(f, args) => ValueCode(f) + (ArgsCode(args) + [OP_SYSCALL, args.Count() % 0x100])
  }

  function AddressCode(e: Expr): seq<byte> {
    match e
    case Var(_, s) => Const(s.addr)
    case Deref(a) => ValueCode(a)
    case _ => []
  }

  function ArgsCode(es: Exprs): seq<byte> {
    match es
    case NoArgs => []
    case Arg(e, rest) => ValueCode(e) + ArgsCode(rest)
  }

  // ----- single instructions -----

  lemma LoadConstRuns(run: State -> Outcome, mc: Machine, p: nat, w: word, stk: seq<word>, m: Store)
    requires IsRunOf(run, mc) && Placed(mc.text, p, Const(w)) && |stk| < mc.limit
    ensures run(State(p, stk, m)) == run(State(p + 5, stk + [w], m))
  {
    hide Bytes32, Word32;
    FetchPlaced(mc.text, p, OP_LD_DWORD, w);
    assert Exec(mc, State(p, stk, m)) == At(State(p + 5, stk + [w], m));
  }

  lemma LoadVarRuns(run: State -> Outcome, mc: Machine, p: nat, a: word, stk: seq<word>, m: Store)
    requires IsRunOf(run, mc) && Placed(mc.text, p, Variable(a)) && |stk| < mc.limit
    ensures run(State(p, stk, m)) == Then(run, LoadAt(m, a), p + 5, stk)
  {
    hide Bytes32, Word32;
    FetchPlaced(mc.text, p, OP_LD_VALUE_DWORD, a);
    assert Exec(mc, State(p, stk, m))
        == if Load(m, a).Some? then At(State(p + 5, stk + [Load(m, a).value], m)) else Crash;
  }

  lemma OperatorRuns(run: State -> Outcome, mc: Machine, p: nat, op: BinOp, stk: seq<word>, x: word, y: word, m: Store)
    requires IsRunOf(run, mc) && Placed(mc.text, p, [DwordOpcode(op)]) && mc.floor <= |stk|
    ensures run(State(p, stk + [x] + [y], m))
         == if Apply(op, x, y).Some? then run(State(p + 1, stk + [Apply(op, x, y).value], m)) else Crash
  {
    hide Apply, Bytes32, Word32, Save, Load;
    PlacedAt(mc.text, p, [DwordOpcode(op)], 0);
    var s := State(p, stk + [x] + [y], m);
    assert Drop(s, 2) == stk && Under(s) == x && Top(s) == y;
    assert DwordOperator(DwordOpcode(op)) == Some(op);
    assert Exec(mc, s) == if Apply(op, x, y).Some?
                          then At(State(p + 1, stk + [Apply(op, x, y).value], m)) else Crash;
  }

  lemma StoreRuns(run: State -> Outcome, mc: Machine, p: nat, stk: seq<word>, a: word, x: word, m: Store)
    requires IsRunOf(run, mc) && Placed(mc.text, p, [OP_ST_DWORD]) && mc.floor <= |stk|
    ensures run(State(p, stk + [a] + [x], m))
         == if Mapped(m, a) then run(State(p + 1, stk + [a], Save(m, a, x).value)) else Crash
  {
    PlacedAt(mc.text, p, [OP_ST_DWORD], 0);
    var s := State(p, stk + [a] + [x], m);
    assert Drop(s, 1) == stk + [a] && Under(s) == a && Top(s) == x;
    assert Exec(mc, s) == if Mapped(m, a) then At(State(p + 1, stk + [a], Save(m, a, x).value)) else Crash;
  }

  lemma ReloadRuns(run: State -> Outcome, mc: Machine, p: nat, stk: seq<word>, a: word, m: Store)
    requires IsRunOf(run, mc) && Placed(mc.text, p, [OP_LD_VALUE_DWORD_STACK]) && mc.floor <= |stk|
    ensures run(State(p, stk + [a], m)) == Then(run, LoadAt(m, a), p + 1, stk)
  {
    PlacedAt(mc.text, p, [OP_LD_VALUE_DWORD_STACK], 0);
    var s := State(p, stk + [a], m);
    assert Drop(s, 1) == stk && Top(s) == a;
    assert Exec(mc, s) == if Load(m, a).Some? then At(State(p + 1, stk + [Load(m, a).value], m)) else Crash;
  }

  lemma ComplementRuns(run: State -> Outcome, mc: Machine, p: nat, stk: seq<word>, x: word, m: Store)
    requires IsRunOf(run, mc) && Placed(mc.text, p, [OP_BITWISE_DWORD]) && mc.floor <= |stk|
    ensures run(State(p, stk + [x], m)) == run(State(p + 1, stk + [Complement(x)], m))
  {
    PlacedAt(mc.text, p, [OP_BITWISE_DWORD], 0);
    var s := State(p, stk + [x], m);
    assert Drop(s, 1) == stk && Top(s) == x;
    assert Exec(mc, s) == At(State(p + 1, stk + [Complement(x)], m));
  }

  lemma PopRuns(run: State -> Outcome, mc: Machine, p: nat, stk: seq<word>, x: word, m: Store)
    requires IsRunOf(run, mc) && Placed(mc.text, p, [OP_POP]) && mc.floor <= |stk|
    ensures run(State(p, stk + [x], m)) == run(State(p + 1, stk, m))
  {
    PlacedAt(mc.text, p, [OP_POP], 0);
    var s := State(p, stk + [x], m);
    assert Drop(s, 1) == stk;
    assert Exec(mc, s) == At(State(p + 1, stk, m));
  }

  lemma CallOutRuns(run: State -> Outcome, mc: Machine, p: nat, stk: seq<word>, g: word, ws: seq<word>, m: Store)
    requires IsRunOf(run, mc) && |ws| <= PARAMETER_MAX && mc.floor <= |stk|
    requires Placed(mc.text, p, [OP_SYSCALL, |ws|])
    ensures run(State(p, stk + [g] + ws, m))
         == run(State(p + 2, stk + [mc.sys(g, ws, m).0], mc.sys(g, ws, m).1))
  {
    PlacedAt(mc.text, p, [OP_SYSCALL, |ws|], 0);
    PlacedAt(mc.text, p, [OP_SYSCALL, |ws|], 1);
    var stack := stk + [g] + ws;
    assert stack[..|stk|] == stk && stack[|stk|] == g && stack[|stk| + 1..] == ws;
    assert Exec(mc, State(p, stack, m)) == At(State(p + 2, stk + [mc.sys(g, ws, m).0], mc.sys(g, ws, m).1));
  }

  // ----- compiler correctness, expression by expression -----

  /** How a run goes on after code that was to compute `r`. */
  function Then(run: State -> Outcome, r: Result, p: nat, stk: seq<word>): Outcome {
    match r
    case Fault => Crash
    case Value(w, m) => run(State(p, stk + [w], m))
  }

  function ThenAll(run: State -> Outcome, r: Results, p: nat, stk: seq<word>): Outcome {
    match r
    case Faults => Crash
    case Values(ws, m) => run(State(p, stk + ws, m))
  }

  /** Room on the stack: nothing below the floor is touched, and `n` nodes need at most
      two slots more than there are nodes. */
  predicate Room(mc: Machine, stk: seq<word>, n: nat) {
    mc.floor <= |stk| && |stk| + n + 2 <= mc.limit
  }

  lemma {:induction false} ValueRuns(run: State -> Outcome, mc: Machine, e: Expr, p: nat, stk: seq<word>, m: Store)
    requires IsRunOf(run, mc) && Sound(e) && Placed(mc.text, p, ValueCode(e)) && Room(mc, stk, Nodes(e))
    ensures run(State(p, stk, m)) == Then(run, Eval(mc.sys, e, m), p + |ValueCode(e)|, stk)
    decreases e, 1
  {
    hide Apply, Bytes32, Word32, Wrap, Bumped;
    match e
    case Lit(l) => LoadConstRuns(run, mc, p, Eval(mc.sys, e, m).w, stk, m);
    case Var(_, s) =>
      if s.cls.SysCall? { LoadConstRuns(run, mc, p, s.addr, stk, m); } else { LoadVarRuns(run, mc, p, s.addr, stk, m); }
    case Pos(a) => ValueRuns(run, mc, a, p, stk, m);
    case AddrOf(l) => AddressRuns(run, mc, l, p, stk, m);
    case Bin(_, _, _) => BinaryRuns(run, mc, e, p, stk, m);
    case Not(_) => UnaryRuns(run, mc, e, p, stk, m);
    case Deref(_) => UnaryRuns(run, mc, e, p, stk, m);
    case Neg(_) => NegRuns(run, mc, e, p, stk, m);
    case Assign(_, _) => AssignRuns(run, mc, e, p, stk, m);
    case Step(_, _, _) => StepRuns(run, mc, e, p, stk, m);
    case Call(_, _) => CallRuns(run, mc, e, p, stk, m);
  }

  lemma {:induction false} AddressRuns(run: State -> Outcome, mc: Machine, e: Expr, p: nat, stk: seq<word>, m: Store)
    requires IsRunOf(run, mc) && Sound(e) && (e.Var? || e.Deref?)
    requires Placed(mc.text, p, AddressCode(e)) && Room(mc, stk, Nodes(e))
    ensures run(State(p, stk, m)) == Then(run, Address(mc.sys, e, m), p + |AddressCode(e)|, stk)
    decreases e, 1
  {
    hide Apply, Bytes32, Word32, Wrap, Bumped;
    if e.Var? {
      LoadConstRuns(run, mc, p, e.sym.addr, stk, m);
    } else {
      ValueRuns(run, mc, e.arg, p, stk, m);
    }
  }

  lemma {:induction false} ArgumentsRun(run: State -> Outcome, mc: Machine, es: Exprs, p: nat, stk: seq<word>, m: Store)
    requires IsRunOf(run, mc) && SoundAll(es) && Placed(mc.text, p, ArgsCode(es)) && Room(mc, stk, NodesAll(es))
    ensures run(State(p, stk, m)) == ThenAll(run, EvalAll(mc.sys, es, m), p + |ArgsCode(es)|, stk)
    decreases es, 1
  {
    hide IsRunOf, Placed, Eval, ValueCode, Nodes, Sound;
    match es
    case NoArgs => assert stk + [] == stk;
    case Arg(e, rest) =>
      PlacedSplit(mc.text, p, ValueCode(e), ArgsCode(rest));
      ValueRuns(run, mc, e, p, stk, m);
      match Eval(mc.sys, e, m)
      case Fault =>
      case Value(x, m1) =>
        ArgumentsRun(run, mc, rest, p + |ValueCode(e)|, stk + [x], m1);
        match EvalAll(mc.sys, rest, m1)
        case Faults =>
        case Values(ws, m2) => assert stk + [x] + ws == stk + ([x] + ws);
  }

  lemma BinaryRuns(run: State -> Outcome, mc: Machine, e: Expr, p: nat, stk: seq<word>, m: Store)
    requires e.Bin? && IsRunOf(run, mc) && Sound(e) && Placed(mc.text, p, ValueCode(e)) && Room(mc, stk, Nodes(e))
    ensures run(State(p, stk, m)) == Then(run, Eval(mc.sys, e, m), p + |ValueCode(e)|, stk)
    decreases e, 0
  {
    hide Apply, Bytes32, Word32, Wrap, Bumped, Save, Load, IsRunOf, Placed, Bump;
    var l, r, op := ValueCode(e.left), ValueCode(e.right), [DwordOpcode(e.op)];
    PlacedSplit(mc.text, p, l, r + op);
    PlacedSplit(mc.text, p + |l|, r, op);
    ValueRuns(run, mc, e.left, p, stk, m);
    match Eval(mc.sys, e.left, m)
    case Fault =>
    case Value(x, m1) =>
      ValueRuns(run, mc, e.right, p + |l|, stk + [x], m1);
      match Eval(mc.sys, e.right, m1)
      case Fault =>
      case Value(y, m2) => OperatorRuns(run, mc, p + |l| + |r|, e.op, stk, x, y, m2);
  }

  lemma UnaryRuns(run: State -> Outcome, mc: Machine, e: Expr, p: nat, stk: seq<word>, m: Store)
    requires (e.Not? || e.Deref?) && IsRunOf(run, mc) && Sound(e)
    requires Placed(mc.text, p, ValueCode(e)) && Room(mc, stk, Nodes(e))
    ensures run(State(p, stk, m)) == Then(run, Eval(mc.sys, e, m), p + |ValueCode(e)|, stk)
    decreases e, 0
  {
    hide Apply, Bytes32, Word32, Wrap, Bumped, Save, Load, IsRunOf, Placed, Bump;
    var a := ValueCode(e.arg);
    PlacedSplit(mc.text, p, a, [if e.Not? then OP_BITWISE_DWORD else OP_LD_VALUE_DWORD_STACK]);
    ValueRuns(run, mc, e.arg, p, stk, m);
    match Eval(mc.sys, e.arg, m)
    case Fault =>
    case Value(x, m1) =>
      if e.Not? { ComplementRuns(run, mc, p + |a|, stk, x, m1); } else { ReloadRuns(run, mc, p + |a|, stk, x, m1); }
  }

  lemma NegRuns(run: State -> Outcome, mc: Machine, e: Expr, p: nat, stk: seq<word>, m: Store)
    requires e.Neg? && IsRunOf(run, mc) && Sound(e) && Placed(mc.text, p, ValueCode(e)) && Room(mc, stk, Nodes(e))
    ensures run(State(p, stk, m)) == Then(run, Eval(mc.sys, e, m), p + |ValueCode(e)|, stk)
    decreases e, 0
  {
    hide Apply, Bytes32, Word32, Bumped, Save, Load, Wrap, IsRunOf, Placed, Bump, ValueCode, Eval, Nodes, Const;
    var a, op := ValueCode(e.arg), [DwordOpcode(Sub)];
    NegParts(mc.sys, e, m);
    PlacedSplit(mc.text, p, Const(0), a + op);
    PlacedSplit(mc.text, p + 5, a, op);
    LoadConstRuns(run, mc, p, 0, stk, m);
    ValueRuns(run, mc, e.arg, p + 5, stk + [0], m);
    match Eval(mc.sys, e.arg, m)
    case Fault =>
    case Value(x, m1) =>
      OperatorRuns(run, mc, p + 5 + |a|, Sub, stk, 0, x, m1);
      NegationWraps(x);
  }

  lemma NegParts(sys: Sys, e: Expr, m: Store)
    requires e.Neg?
    ensures ValueCode(e) == Const(0) + (ValueCode(e.arg) + [DwordOpcode(Sub)]) && |Const(0)| == 5
    ensures Nodes(e) == 2 + Nodes(e.arg)
    ensures Eval(sys, e, m)
         == match Eval(sys, e.arg, m) case Fault => Fault case Value(x, m1) => Value(Wrap(WORD_LIMIT - x), m1)
  {
  }

  lemma NegationWraps(x: word)
    ensures Apply(Sub, 0, x) == Some(Wrap(WORD_LIMIT - x))
  {
  }

  /** ST_DWORD leaves the address, and LD_VALUE_DWORD_STACK reloads through it. */
  lemma StoreReloadRuns(run: State -> Outcome, mc: Machine, p: nat, stk: seq<word>, a: word, x: word, m: Store)
    requires IsRunOf(run, mc) && mc.floor <= |stk|
    requires Placed(mc.text, p, [OP_ST_DWORD] + [OP_LD_VALUE_DWORD_STACK])
    ensures run(State(p, stk + [a] + [x], m))
         == if Mapped(m, a) then run(State(p + 2, stk + [x], Save(m, a, x).value)) else Crash
  {
    PlacedSplit(mc.text, p, [OP_ST_DWORD], [OP_LD_VALUE_DWORD_STACK]);
    StoreRuns(run, mc, p, stk, a, x, m);
    if Mapped(m, a) {
      SaveThenLoad(m, a, x);
      ReloadRuns(run, mc, p + 1, stk, a, Save(m, a, x).value);
    }
  }

  lemma AssignRuns(run: State -> Outcome, mc: Machine, e: Expr, p: nat, stk: seq<word>, m: Store)
    requires e.Assign? && IsRunOf(run, mc) && Sound(e) && Placed(mc.text, p, ValueCode(e)) && Room(mc, stk, Nodes(e))
    ensures run(State(p, stk, m)) == Then(run, Eval(mc.sys, e, m), p + |ValueCode(e)|, stk)
    decreases e, 0
  {
    hide Apply, Bytes32, Word32, Wrap, Bumped, Save, Load, IsRunOf, Placed, Bump;
    var l, r, st := AddressCode(e.left), ValueCode(e.right), [OP_ST_DWORD] + [OP_LD_VALUE_DWORD_STACK];
    PlacedSplit(mc.text, p, l, r + st);
    PlacedSplit(mc.text, p + |l|, r, st);
    AddressRuns(run, mc, e.left, p, stk, m);
    match Address(mc.sys, e.left, m)
    case Fault =>
    case Value(a, m1) =>
      ValueRuns(run, mc, e.right, p + |l|, stk + [a], m1);
      match Eval(mc.sys, e.right, m1)
      case Fault =>
      case Value(x, m2) => StoreReloadRuns(run, mc, p + |l| + |r|, stk, a, x, m2);
  }

  /** Up to the store, `++` and `--` compute the new value above the address. */
  lemma BumpRuns(run: State -> Outcome, mc: Machine, p: nat, a: word, up: bool, last: byte, stk: seq<word>, m: Store)
    requires IsRunOf(run, mc) && mc.floor <= |stk| && |stk| + 3 <= mc.limit && Mapped(m, a)
    requires Placed(mc.text, p, Bump(a, up, last))
    ensures run(State(p, stk + [a], m))
         == run(State(p + 11, stk + [a] + [Bumped(Load(m, a).value, up)], m))
    ensures Placed(mc.text, p + 11, [OP_ST_DWORD] + [last]) && |Bump(a, up, last)| == 13
  {
    hide Bytes32, Word32;
    var op := if up then Add else Sub;
    var end := [OP_ST_DWORD] + [last];
    PlacedSplit(mc.text, p, Variable(a), Const(1) + ([DwordOpcode(op)] + end));
    PlacedSplit(mc.text, p + 5, Const(1), [DwordOpcode(op)] + end);
    PlacedSplit(mc.text, p + 10, [DwordOpcode(op)], end);
    var v := Load(m, a).value;
    LoadVarRuns(run, mc, p, a, stk + [a], m);
    LoadConstRuns(run, mc, p + 5, 1, stk + [a] + [v], m);
    OperatorRuns(run, mc, p + 10, op, stk + [a], v, 1, m);
  }

  lemma StepRuns(run: State -> Outcome, mc: Machine, e: Expr, p: nat, stk: seq<word>, m: Store)
    requires e.Step? && IsRunOf(run, mc) && Sound(e) && Placed(mc.text, p, ValueCode(e)) && Room(mc, stk, Nodes(e))
    ensures run(State(p, stk, m)) == Then(run, Eval(mc.sys, e, m), p + |ValueCode(e)|, stk)
  {
    hide Apply, Bytes32, Word32, Wrap, Bumped;
    if e.prefix {
      PrefixRuns(run, mc, p, e.arg.sym.addr, e.up, stk, m);
    } else {
      PostfixRuns(run, mc, p, e.arg.sym.addr, e.up, stk, m);
    }
  }

  lemma PrefixRuns(run: State -> Outcome, mc: Machine, p: nat, a: word, up: bool, stk: seq<word>, m: Store)
    requires IsRunOf(run, mc) && Room(mc, stk, 2)
    requires Placed(mc.text, p, Const(a) + Bump(a, up, OP_LD_VALUE_DWORD_STACK))
    ensures |Bump(a, up, OP_LD_VALUE_DWORD_STACK)| == 13
    ensures run(State(p, stk, m))
         == if !Mapped(m, a) then Crash
            else var after := Bumped(Load(m, a).value, up);
                 run(State(p + 18, stk + [after], Save(m, a, after).value))
  {
    hide Bytes32, Word32;
    var last := OP_LD_VALUE_DWORD_STACK;
    PlacedSplit(mc.text, p, Const(a), Bump(a, up, last));
    LoadConstRuns(run, mc, p, a, stk, m);
    if Mapped(m, a) {
      BumpRuns(run, mc, p + 5, a, up, last, stk, m);
      StoreReloadRuns(run, mc, p + 16, stk, a, Bumped(Load(m, a).value, up), m);
    } else {
      BumpCrashes(run, mc, p + 5, a, up, last, stk + [a], m);
    }
  }

  lemma BumpCrashes(run: State -> Outcome, mc: Machine, p: nat, a: word, up: bool, last: byte, stk: seq<word>, m: Store)
    requires IsRunOf(run, mc) && |stk| < mc.limit && !Mapped(m, a) && Placed(mc.text, p, Bump(a, up, last))
    ensures run(State(p, stk, m)) == Crash
  {
    hide Bytes32, Word32;
    var op := if up then Add else Sub;
    PlacedSplit(mc.text, p, Variable(a), Const(1) + ([DwordOpcode(op)] + ([OP_ST_DWORD] + [last])));
    LoadVarRuns(run, mc, p, a, stk, m);
  }

  lemma PostfixRuns(run: State -> Outcome, mc: Machine, p: nat, a: word, up: bool, stk: seq<word>, m: Store)
    requires IsRunOf(run, mc) && Room(mc, stk, 2)
    requires Placed(mc.text, p, Variable(a) + (Const(a) + Bump(a, up, OP_POP)))
    ensures |Bump(a, up, OP_POP)| == 13
    ensures run(State(p, stk, m))
         == if !Mapped(m, a) then Crash
            else var before := Load(m, a).value;
                 run(State(p + 23, stk + [before], Save(m, a, Bumped(before, up)).value))
  {
    hide Bytes32, Word32;
    PlacedSplit(mc.text, p, Variable(a), Const(a) + Bump(a, up, OP_POP));
    PlacedSplit(mc.text, p + 5, Const(a), Bump(a, up, OP_POP));
    LoadVarRuns(run, mc, p, a, stk, m);
    if Mapped(m, a) {
      var before := Load(m, a).value;
      var after := Bumped(before, up);
      LoadConstRuns(run, mc, p + 5, a, stk + [before], m);
      BumpRuns(run, mc, p + 10, a, up, OP_POP, stk + [before], m);
      StorePopRuns(run, mc, p + 21, stk + [before], a, after, m);
    }
  }

  lemma StorePopRuns(run: State -> Outcome, mc: Machine, p: nat, stk: seq<word>, a: word, x: word, m: Store)
    requires IsRunOf(run, mc) && mc.floor <= |stk| && Mapped(m, a)
    requires Placed(mc.text, p, [OP_ST_DWORD] + [OP_POP])
    ensures run(State(p, stk + [a] + [x], m)) == run(State(p + 2, stk, Save(m, a, x).value))
  {
    PlacedSplit(mc.text, p, [OP_ST_DWORD], [OP_POP]);
    StoreRuns(run, mc, p, stk, a, x, m);
    PopRuns(run, mc, p + 1, stk, a, Save(m, a, x).value);
  }

  lemma CallRuns(run: State -> Outcome, mc: Machine, e: Expr, p: nat, stk: seq<word>, m: Store)
    requires e.Call? && IsRunOf(run, mc) && Sound(e) && Placed(mc.text, p, ValueCode(e)) && Room(mc, stk, Nodes(e))
    ensures run(State(p, stk, m)) == Then(run, Eval(mc.sys, e, m), p + |ValueCode(e)|, stk)
    decreases e, 0
  {
    hide IsRunOf, Placed, Sound, SoundAll, ValueCode, ArgsCode, Nodes, NodesAll, Eval, EvalAll;
    var f, rest := ValueCode(e.callee), ArgsCode(e.args) + [OP_SYSCALL, e.args.Count()];
    CallParts(e);
    CallValue(mc.sys, e, m);
    PlacedSplit(mc.text, p, f, rest);
    ValueRuns(run, mc, e.callee, p, stk, m);
    match Eval(mc.sys, e.callee, m)
    case Fault =>
    case Value(g, m1) => ApplyRuns(run, mc, e.args, p + |f|, stk, g, m1);
  }

  lemma CallParts(e: Expr)
    requires e.Call? && Sound(e)
    ensures Sound(e.callee) && SoundAll(e.args) && e.args.Count() <= PARAMETER_MAX
    ensures ValueCode(e) == ValueCode(e.callee) + (ArgsCode(e.args) + [OP_SYSCALL, e.args.Count()])
    ensures Nodes(e) == 1 + Nodes(e.callee) + NodesAll(e.args)
  {
    hide Const, Variable, Bump, AddressCode, ArgsCode, NodesAll, SoundAll, DwordOpcode, WidthOf, DwordVar;
    var n := e.args.Count();
    SmallByte(n);
  }

  lemma SmallByte(n: nat)
    requires n <= PARAMETER_MAX
    ensures n % 0x100 == n
  {
  }

  lemma CallValue(sys: Sys, e: Expr, m: Store)
    requires e.Call?
    ensures Eval(sys, e, m)
         == match Eval(sys, e.callee, m)
            case Fault => Fault
            case Value(g, m1) =>
              match EvalAll(sys, e.args, m1)
              case Faults => Fault
              case Values(ws, m2) => Value(sys(g, ws, m2).0, sys(g, ws, m2).1)
  {
  }

  /** The callee's address is on the stack: push the arguments and call. */
  lemma ApplyRuns(run: State -> Outcome, mc: Machine, es: Exprs, p: nat, stk: seq<word>, g: word, m: Store)
    requires IsRunOf(run, mc) && SoundAll(es) && es.Count() <= PARAMETER_MAX && Room(mc, stk, 1 + NodesAll(es))
    requires Placed(mc.text, p, ArgsCode(es) + [OP_SYSCALL, es.Count()])
    ensures run(State(p, stk + [g], m))
         == match EvalAll(mc.sys, es, m)
            case Faults => Crash
            case Values(ws, m1) =>
              run(State(p + |ArgsCode(es)| + 2, stk + [mc.sys(g, ws, m1).0], mc.sys(g, ws, m1).1))
    decreases es, 2
  {
    hide IsRunOf, Placed, SoundAll, ArgsCode, NodesAll, EvalAll;
    PlacedSplit(mc.text, p, ArgsCode(es), [OP_SYSCALL, es.Count()]);
    ArgumentsRun(run, mc, es, p, stk + [g], m);
    match EvalAll(mc.sys, es, m)
    case Faults =>
    case Values(ws, m1) => CallOutRuns(run, mc, p + |ArgsCode(es)|, stk, g, ws, m1);
  }

  // ----- from the marked tree to the code of the expression -----

  lemma {:induction false} CheckedWidth(t: Tree, e: Expr, b: bool)
    requires Encodes(t, e)
    ensures Check(t, b).width == WidthOf(e)
    decreases t, e
  {
    match e
    case Lit(_) =>
    case Var(_, _) =>
    case Pos(a) => CheckedWidth(t, a, b);
    case Neg(_) => assert Check(t.child, ChildMode(t.kind, b)).width == 3;
    case Bin(_, l, _) => CheckedWidth(t.child, l, ChildMode(t.kind, b));
    case Assign(l, _) => CheckedWidth(t.child, l, ChildMode(t.kind, b));
    case Call(f, _) => CheckedWidth(t.child, f, ChildMode(t.kind, b));
    case Not(a) => CheckedWidth(t.child, a, ChildMode(t.kind, b));
    case Deref(a) => CheckedWidth(t.child, a, ChildMode(t.kind, b));
    case AddrOf(a) => CheckedWidth(t.child, a, ChildMode(t.kind, b));
    case Step(_, _, a) => CheckedWidth(t.child, a, ChildMode(t.kind, b));
  }

  lemma CountSiblings(t: Tree, es: Exprs)
    requires EncodesAll(t, es)
    ensures SiblingCount(Check(t, false)) == es.Count()
  {
    if es.Arg? { CountSiblings(t.sibling, es.tail); }
  }

  lemma OwnUnary(t: Tree, b: bool)
    requires One(t)
    ensures var T := Check(t, b);
            Own(T) == Own(Check(t.child, ChildMode(t.kind, b))) + Emit(T.kind, T.addr, T.width, T.child)
  {
    hide Emit, OwnWidth, ChildMode;
    assert Code(Check(t, b).child) == Own(Check(t.child, ChildMode(t.kind, b))) + [];
  }

  lemma OwnBinary(t: Tree, b: bool)
    requires Two(t)
    ensures var T := Check(t, b);
            Own(T) == Own(Check(t.child, ChildMode(t.kind, b)))
                    + (Own(Check(t.child.sibling, false)) + Emit(T.kind, T.addr, T.width, T.child))
  {
    hide Emit, OwnWidth, ChildMode;
    var c := Check(t.child, ChildMode(t.kind, b));
    assert Code(c) == Own(c) + Code(c.sibling);
    assert c.sibling == Check(t.child.sibling, false);
    assert Code(c.sibling) == Own(c.sibling) + [];
  }

  /** The marked tree of a sound expression generates the expression's code. */
  lemma {:induction false} OwnIsValueCode(t: Tree, e: Expr)
    requires Encodes(t, e) && Sound(e)
    ensures Own(Check(t, false)) == ValueCode(e)
    decreases e, 1
  {
    hide Bytes32, Emit, Own, Code, Check;
    match e
    case Lit(_) => OwnLeaf(t, e);
    case Var(_, _) => OwnLeaf(t, e);
    case Pos(a) => OwnIsValueCode(t, a);
    case Bin(_, l, r) =>
      OwnIsValueCode(t.child, l);
      OwnIsValueCode(t.child.sibling, r);
      OwnOperator(t, e);
    case Neg(a) =>
      OwnLeaf(t.child, Lit(LongLit(0)));
      OwnIsValueCode(t.child.sibling, a);
      OwnOperator(t, e);
    case Not(a) => OwnIsValueCode(t.child, a); OwnOperator(t, e);
    case Deref(a) => OwnIsValueCode(t.child, a); OwnOperator(t, e);
    case AddrOf(l) => OwnIsAddressCode(t.child, l); OwnOperator(t, e);
    case Assign(l, r) =>
      OwnIsAddressCode(t.child, l);
      OwnIsValueCode(t.child.sibling, r);
      OwnAssign(t, e);
    case Step(prefix, up, l) => OwnStep(t, e);
    case Call(f, args) =>
      OwnIsValueCode(t.child, f);
      CodeIsArgsCode(t.child.sibling, args);
      OwnCall(t, e);
  }

  lemma OwnLeaf(t: Tree, e: Expr)
    requires (e.Lit? || e.Var?) && Encodes(t, e) && Sound(e)
    ensures Own(Check(t, false)) == ValueCode(e)
    ensures e.Var? ==> Own(Check(t, true)) == AddressCode(e)
  {
    hide Bytes32;
  }

  /** What the operators add to the code of their operands. */
  lemma OwnOperator(t: Tree, e: Expr)
    requires (e.Bin? || e.Neg? || e.Not? || e.Deref? || e.AddrOf?) && Encodes(t, e) && Sound(e)
    ensures Own(Check(t, false))
         == match e
            case Bin(op, _, _) => Own(Check(t.child, false)) + (Own(Check(t.child.sibling, false)) + [DwordOpcode(op)])
            case Neg(_) => Own(Check(t.child, false)) + (Own(Check(t.child.sibling, false)) + [DwordOpcode(Sub)])
            case Not(_) => Own(Check(t.child, false)) + [OP_BITWISE_DWORD]
            case Deref(_) => Own(Check(t.child, false)) + [OP_LD_VALUE_DWORD_STACK]
            case AddrOf(_) => Own(Check(t.child, true))
            case _ => []
  {
    hide Own, Code;
    CheckedWidth(t, e, false);
    if e.Bin? || e.Neg? { OwnBinary(t, false); } else { OwnUnary(t, false); }
  }

  lemma OwnAssign(t: Tree, e: Expr)
    requires e.Assign? && Encodes(t, e) && Sound(e)
    ensures Own(Check(t, false))
         == Own(Check(t.child, true))
          + (Own(Check(t.child.sibling, false)) + ([OP_ST_DWORD] + [OP_LD_VALUE_DWORD_STACK]))
  {
    hide Own, Code;
    CheckedWidth(t.child, e.left, true);
    OwnBinary(t, false);
  }

  lemma OwnCall(t: Tree, e: Expr)
    requires e.Call? && Encodes(t, e) && Sound(e)
    ensures Own(Check(t, false))
         == Own(Check(t.child, false)) + (Code(Check(t.child.sibling, false)) + [OP_SYSCALL, e.args.Count()])
  {
    hide Own, Code, WidthOf, OwnWidth, ChildMode;
    CountSiblings(t.child.sibling, e.args);
    OwnChain(t);
  }

  lemma OwnChain(t: Tree)
    requires t.Node? && t.kind == Op(Func) && t.child.Node?
    ensures var T := Check(t, false);
            Own(T) == Own(Check(t.child, false))
                    + (Code(Check(t.child.sibling, false)) + Emit(T.kind, T.addr, T.width, T.child))
  {
    hide Emit, OwnWidth;
    var T := Check(t, false);
    assert T.child == Check(t.child, false) && T.child.sibling == Check(t.child.sibling, false);
    assert Code(T.child) == Own(T.child) + Code(T.child.sibling);
  }

  lemma OwnStep(t: Tree, e: Expr)
    requires e.Step? && Encodes(t, e) && Sound(e)
    ensures Own(Check(t, false)) == ValueCode(e)
  {
    hide Own, Code, Bytes32, EmitStep, Bump;
    CheckedWidth(t, e, false);
    OwnUnary(t, false);
    OwnLeaf(t.child, e.arg);
    EmitStepIsBump(e.prefix, e.up, e.arg.sym);
  }

  lemma EmitStepIsBump(prefix: bool, up: bool, s: Symbol)
    ensures EmitStep(StepOp(prefix, up), s, 3)
         == if prefix then Bump(s.addr, up, OP_LD_VALUE_DWORD_STACK) else Const(s.addr) + Bump(s.addr, up, OP_POP)
  {
    hide Bytes32;
  }

  lemma {:induction false} OwnIsAddressCode(t: Tree, e: Expr)
    requires Encodes(t, e) && Sound(e) && (e.Var? || e.Deref?)
    ensures Own(Check(t, true)) == AddressCode(e)
    decreases e, 1
  {
    if e.Deref? {
      OwnUnary(t, true);
      OwnIsValueCode(t.child, e.arg);
    } else {
      OwnLeaf(t, e);
    }
  }

  lemma {:induction false} CodeIsArgsCode(t: Tree, es: Exprs)
    requires EncodesAll(t, es) && SoundAll(es)
    ensures Code(Check(t, false)) == ArgsCode(es)
    decreases es, 1
  {
    if es.Arg? {
      OwnIsValueCode(t, es.head);
      CodeIsArgsCode(t.sibling, es.tail);
    }
  }
}
