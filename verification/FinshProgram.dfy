/** Whole programs: the compiler working in place on the node table and the text segment,
    and statement lists run to the end by the machine. */
module FinshProgram {
  import opened Basics
  import opened FinshWords
  import opened FinshSyntax
  import opened FinshNodes
  import opened FinshMachine
  import opened FinshCompiler

  // ----- one expression -----

  /** Nodes of a tree without its siblings. */
  function OwnSize(t: Tree): nat
    decreases t, 0
  {
    if t.Nil? then 0 else 1 + Size(t.child)
  }

  function Size(t: Tree): nat
    decreases t, 1
  {
    if t.Nil? then 0 else OwnSize(t) + Size(t.sibling)
  }

  lemma SizeOfOne(t: Tree)
    requires One(t)
    ensures OwnSize(t) == 1 + OwnSize(t.child)
  {
    assert Size(t.child) == OwnSize(t.child) + 0;
  }

  lemma SizeOfTwo(t: Tree)
    requires Two(t)
    ensures OwnSize(t) == 1 + OwnSize(t.child) + OwnSize(t.child.sibling)
  {
    assert Size(t.child.sibling) == OwnSize(t.child.sibling) + 0;
  }

  lemma {:induction false} SizeIsNodes(t: Tree, e: Expr)
    requires Encodes(t, e)
    ensures OwnSize(t) == Nodes(e)
    decreases t, e
  {
    match e
    case Lit(_) =>
    case Var(_, _) =>
    case Pos(a) => SizeIsNodes(t, a);
    case Neg(a) =>
      SizeOfTwo(t);
      SizeIsNodes(t.child.sibling, a);
    case Bin(_, l, r) => SizeOfTwo(t); SizeIsNodes(t.child, l); SizeIsNodes(t.child.sibling, r);
    case Assign(l, r) => SizeOfTwo(t); SizeIsNodes(t.child, l); SizeIsNodes(t.child.sibling, r);
    case Not(a) => SizeOfOne(t); SizeIsNodes(t.child, a);
    case Deref(a) => SizeOfOne(t); SizeIsNodes(t.child, a);
    case AddrOf(a) => SizeOfOne(t); SizeIsNodes(t.child, a);
    case Step(_, _, a) => SizeOfOne(t); SizeIsNodes(t.child, a);
    case Call(f, args) => SizeIsNodes(t.child, f); SizeIsNodesAll(t.child.sibling, args);
  }

  lemma {:induction false} SizeIsNodesAll(t: Tree, es: Exprs)
    requires EncodesAll(t, es)
    ensures Size(t) == NodesAll(es)
    decreases t, es
  {
    if es.Arg? { SizeIsNodes(t, es.head); SizeIsNodesAll(t.sibling, es.tail); }
  }

  /** Compiler correctness. Running the code of the marked tree of a sound expression, from
      any stack and store, crashes exactly when the expression has no value; otherwise it
      pushes exactly the value, leaves the store the evaluation leaves and the rest of the
      stack alone. Meanwhile the stack never drops below its start and never rises more
      than the number of tree nodes plus two above it: take floor |stk| and limit
      |stk| + nodes + 2, at which any excursion would crash. */
  lemma CompiledExpressionRuns(mc: Machine, t: Tree, e: Expr, p: nat, stk: seq<word>, m: Store)
    requires Encodes(t, e) && Sound(e) && Placed(mc.text, p, Own(Check(t, false)))
    requires mc.floor <= |stk| && |stk| + OwnSize(t) + 2 <= mc.limit
    ensures Run(mc, State(p, stk, m))
         == match Eval(mc.sys, e, m)
            case Fault => Crash
            case Value(w, m1) => Run(mc, State(p + |Own(Check(t, false))|, stk + [w], m1))
  {
    hide Eval, Exec, Run, IsRunOf, Placed, Encodes, Sound, Own, Check, ValueCode, Nodes, OwnSize;
    SizeIsNodes(t, e);
    OwnIsValueCode(t, e);
    RunIsRun(mc);
    ValueRuns(s => Run(mc, s), mc, e, p, stk, m);
  }

  /** Exactly when a binary operator is compiled faithfully. Its opcode is chosen by the
      data type of its first operand, and a call or a system call's name has none: then no
      opcode is emitted and both operand values stay on the stack. */
  lemma OperatorNeedsDword(mc: Machine, t: Tree, e: Expr, p: nat, stk: seq<word>, m: Store)
    requires e.Bin? && Sound(e.left) && Sound(e.right)
    requires Encodes(t, e) && Placed(mc.text, p, Own(Check(t, false)))
    requires mc.floor <= |stk| && |stk| + Nodes(e) + 2 <= mc.limit
    ensures Run(mc, State(p, stk, m))
         == if WidthOf(e.left) == 3 then
              (match Eval(mc.sys, e, m)
               case Fault => Crash
               case Value(w, m1) => Run(mc, State(p + |Own(Check(t, false))|, stk + [w], m1)))
            else
              match EvalAll(mc.sys, Arg(e.left, Arg(e.right, NoArgs)), m)
              case Faults => Crash
              case Values(ws, m1) => Run(mc, State(p + |Own(Check(t, false))|, stk + ws, m1))
  {
    hide Eval, EvalAll, Exec, Run, Own, Check, ArgsCode, Placed;
    if WidthOf(e.left) == 3 {
      SizeIsNodes(t, e);
      CompiledExpressionRuns(mc, t, e, p, stk, m);
    } else {
      SkippedOperator(t, e);
      OperandsRun(mc, e.left, e.right, p, stk, m);
    }
  }

  lemma OperandsRun(mc: Machine, l: Expr, r: Expr, p: nat, stk: seq<word>, m: Store)
    requires Sound(l) && Sound(r) && Placed(mc.text, p, ArgsCode(Arg(l, Arg(r, NoArgs))))
    requires mc.floor <= |stk| && |stk| + Nodes(l) + Nodes(r) + 3 <= mc.limit
    ensures Run(mc, State(p, stk, m))
         == match EvalAll(mc.sys, Arg(l, Arg(r, NoArgs)), m)
            case Faults => Crash
            case Values(ws, m1) => Run(mc, State(p + |ArgsCode(Arg(l, Arg(r, NoArgs)))|, stk + ws, m1))
  {
    hide Eval, EvalAll, Exec, Run, ArgsCode, Placed;
    var both := Arg(l, Arg(r, NoArgs));
    assert SoundAll(both) by { assert SoundAll(both.tail); }
    assert NodesAll(both.tail) == Nodes(r);
    RunIsRun(mc);
    ArgumentsRun(s => Run(mc, s), mc, both, p, stk, m);
  }

  /** The same for complement and dereference: without a data type the operand's value stays
      as it is. */
  lemma UnaryNeedsDword(mc: Machine, t: Tree, e: Expr, p: nat, stk: seq<word>, m: Store)
    requires (e.Not? || e.Deref?) && Sound(e.arg)
    requires Encodes(t, e) && Placed(mc.text, p, Own(Check(t, false)))
    requires mc.floor <= |stk| && |stk| + Nodes(e) + 2 <= mc.limit
    ensures Run(mc, State(p, stk, m))
         == match Eval(mc.sys, if WidthOf(e.arg) == 3 then e else e.arg, m)
            case Fault => Crash
            case Value(w, m1) => Run(mc, State(p + |Own(Check(t, false))|, stk + [w], m1))
  {
    hide Eval, Exec, Run, Own, Check, Placed, ValueCode;
    if WidthOf(e.arg) == 3 {
      SizeIsNodes(t, e);
      CompiledExpressionRuns(mc, t, e, p, stk, m);
    } else {
      SkippedUnary(t, e);
      RunIsRun(mc);
      ValueRuns(s => Run(mc, s), mc, e.arg, p, stk, m);
    }
  }

  /** And for assignment through a dereference: without a data type nothing is stored, and the
      address and the value stay on the stack. */
  lemma AssignNeedsDword(mc: Machine, t: Tree, e: Expr, p: nat, stk: seq<word>, m: Store)
    requires e.Assign? && e.left.Deref? && Sound(e.left.arg) && Sound(e.right)
    requires Encodes(t, e) && Placed(mc.text, p, Own(Check(t, false)))
    requires mc.floor <= |stk| && |stk| + Nodes(e) + 2 <= mc.limit
    ensures Run(mc, State(p, stk, m))
         == if WidthOf(e.left.arg) == 3 then
              (match Eval(mc.sys, e, m)
               case Fault => Crash
               case Value(w, m1) => Run(mc, State(p + |Own(Check(t, false))|, stk + [w], m1)))
            else
              match EvalAll(mc.sys, Arg(e.left.arg, Arg(e.right, NoArgs)), m)
              case Faults => Crash
              case Values(ws, m1) => Run(mc, State(p + |Own(Check(t, false))|, stk + ws, m1))
  {
    hide Eval, EvalAll, Exec, Run, Own, Check, ArgsCode, Placed;
    if WidthOf(e.left.arg) == 3 {
      SizeIsNodes(t, e);
      CompiledExpressionRuns(mc, t, e, p, stk, m);
    } else {
      SkippedStore(t, e);
      OperandsRun(mc, e.left.arg, e.right, p, stk, m);
    }
  }

  lemma SkippedUnary(t: Tree, e: Expr)
    requires (e.Not? || e.Deref?) && Sound(e.arg) && WidthOf(e.arg) != 3 && Encodes(t, e)
    ensures Own(Check(t, false)) == ValueCode(e.arg)
    ensures e.Deref? ==> Own(Check(t, true)) == ValueCode(e.arg)
  {
    hide Own, Code, ValueCode;
    OwnUnary(t, false);
    OwnUnary(t, true);
    CheckedWidth(t, e, false);
    SoundWidths(e.arg);
    OwnIsValueCode(t.child, e.arg);
    assert ValueCode(e.arg) + [] == ValueCode(e.arg);
  }

  lemma SkippedStore(t: Tree, e: Expr)
    requires e.Assign? && e.left.Deref? && Sound(e.left.arg) && Sound(e.right) && WidthOf(e.left.arg) != 3
    requires Encodes(t, e)
    ensures Own(Check(t, false)) == ArgsCode(Arg(e.left.arg, Arg(e.right, NoArgs)))
  {
    hide Own, Code, ValueCode;
    OwnBinary(t, false);
    CheckedWidth(t.child, e.left, true);
    SoundWidths(e.left.arg);
    SkippedUnary(t.child, e.left);
    OwnIsValueCode(t.child.sibling, e.right);
    assert ArgsCode(Arg(e.right, NoArgs)) == ValueCode(e.right) + [];
  }

  lemma SkippedOperator(t: Tree, e: Expr)
    requires e.Bin? && Sound(e.left) && Sound(e.right) && WidthOf(e.left) != 3 && Encodes(t, e)
    ensures Own(Check(t, false)) == ArgsCode(Arg(e.left, Arg(e.right, NoArgs)))
  {
    hide Own, Code;
    OwnBinary(t, false);
    CheckedWidth(t, e, false);
    SoundWidths(e.left);
    OwnIsValueCode(t.child, e.left);
    OwnIsValueCode(t.child.sibling, e.right);
    assert ArgsCode(Arg(e.right, NoArgs)) == ValueCode(e.right) + [];
  }

  lemma SoundWidths(e: Expr)
    requires Sound(e)
    ensures WidthOf(e) == 3 || WidthOf(e) == 0
  {
  }

  // ----- statement lists -----

  /** The statements of a root chain, each but the last followed by a pop. */
  function StatementsCode(t: Tree): seq<byte> {
    if t.Nil? then []
    else if t.sibling.Nil? then Own(t)
    else Own(t) + ([OP_POP] + StatementsCode(t.sibling))
  }

  /** The value of the last statement, the store threaded through all of them. */
  function EvalStatements(sys: Sys, es: Exprs, m: Store): Result
    requires es.Arg?
  {
    match Eval(sys, es.head, m)
    case Fault => Fault
    case Value(w, m1) => if es.tail.NoArgs? then Value(w, m1) else EvalStatements(sys, es.tail, m1)
  }

  lemma EncodedIsNode(t: Tree, es: Exprs)
    requires es.Arg? && EncodesAll(t, es)
    ensures t.Node? && Check(t, false).Node?
  {
  }

  /** One statement and the pop behind it. */
  lemma StatementRuns(run: State -> Outcome, mc: Machine, e: Expr, p: nat, m: Store)
    requires IsRunOf(run, mc) && mc.floor == 0 && Sound(e) && Nodes(e) + 2 <= mc.limit
    requires Placed(mc.text, p, ValueCode(e)) && Placed(mc.text, p + |ValueCode(e)|, [OP_POP])
    ensures run(State(p, [], m))
         == match Eval(mc.sys, e, m)
            case Fault => Crash
            case Value(w, m1) => run(State(p + |ValueCode(e)| + 1, [], m1))
  {
    hide Eval, Exec, IsRunOf, Placed, Sound, ValueCode;
    ValueRuns(run, mc, e, p, [], m);
    match Eval(mc.sys, e, m)
    case Fault =>
    case Value(w, m1) => PopRuns(run, mc, p + |ValueCode(e)|, [], w, m1);
  }

  lemma {:induction false} StatementsRun(run: State -> Outcome, mc: Machine, t: Tree, es: Exprs, p: nat, m: Store)
    requires IsRunOf(run, mc) && mc.floor == 0 && es.Arg? && EncodesAll(t, es) && SoundAll(es)
    requires Placed(mc.text, p, StatementsCode(Check(t, false))) && NodesAll(es) + 2 <= mc.limit
    ensures run(State(p, [], m))
         == Then(run, EvalStatements(mc.sys, es, m), p + |StatementsCode(Check(t, false))|, [])
    decreases es
  {
    hide Eval, Exec, Own, Code, IsRunOf, Placed, Sound, ValueCode, Nodes;
    var T := Check(t, false);
    var rest := [OP_POP] + StatementsCode(T.sibling);
    assert T.sibling == Check(t.sibling, false);
    OwnIsValueCode(t, es.head);
    if es.tail.NoArgs? {
      ValueRuns(run, mc, es.head, p, [], m);
    } else {
      EncodedIsNode(t.sibling, es.tail);
      PlacedSplit(mc.text, p, Own(T), rest);
      PlacedSplit(mc.text, p + |Own(T)|, [OP_POP], StatementsCode(T.sibling));
      StatementRuns(run, mc, es.head, p, m);
      match Eval(mc.sys, es.head, m)
      case Fault =>
      case Value(w, m1) => StatementsRun(run, mc, t.sibling, es.tail, p + |Own(T)| + 1, m1);
    }
  }

  /** The zero tail of the text segment does nothing. */
  lemma {:induction false} NoOpsRun(mc: Machine, s: State)
    requires s.pc <= |mc.text| && forall k :: s.pc <= k < |mc.text| ==> mc.text[k] == OP_NOOP
    ensures Run(mc, s) == At(s.(pc := |mc.text|))
    decreases |mc.text| - s.pc
  {
    if s.pc < |mc.text| { NoOpsRun(mc, s.(pc := s.pc + 1)); }
  }

  /** A text segment holding `code` and then zeros. */
  predicate Loaded(text: seq<byte>, code: seq<byte>) {
    |code| <= |text| == TEXT_MAX && text[..|code|] == code
    && forall k :: |code| <= k < TEXT_MAX ==> text[k] == OP_NOOP
  }

  /** Whole programs: the machine, started on the compiled statements, stops at the end of
      the text with exactly the last statement's value on the stack (so it is the bottom
      slot) and the store threaded through all statements; it crashes exactly when some
      statement on the way has no value. Sixteen table entries always leave stack enough. */
  lemma ProgramRuns(sys: Sys, text: seq<byte>, t: Tree, es: Exprs, m: Store)
    requires es.Arg? && EncodesAll(t, es) && SoundAll(es)
    requires Loaded(text, StatementsCode(Check(t, false))) && Size(t) <= NODE_MAX
    ensures Run(Machine(text, 0, STACK_MAX, sys), State(0, [], m))
         == match EvalStatements(sys, es, m)
            case Fault => Crash
            case Value(w, m1) => At(State(TEXT_MAX, [w], m1))
  {
    hide Eval, Exec, StatementsCode;
    var mc := Machine(text, 0, STACK_MAX, sys);
    var code := StatementsCode(Check(t, false));
    SizeIsNodesAll(t, es);
    RunIsRun(mc);
    assert Placed(text, 0, code) by {
      forall k | 0 <= k < |code| ensures text[k] == code[k] { assert text[..|code|][k] == code[k]; }
    }
    StatementsRun(s => Run(mc, s), mc, t, es, 0, m);
    match EvalStatements(sys, es, m)
    case Fault =>
    case Value(w, m1) =>
      assert [] + [w] == [w];
      NoOpsRun(mc, State(|code|, [w], m1));
  }

  /** `f() + 1` for a system call `f`, and the tree the parser makes of it. */
  function CallPlusOne(f: Symbol): Expr {
    Bin(Add, Call(Var("f", f), NoArgs), Lit(IntLit(1)))
  }

  function CallPlusOneTree(f: Symbol): Tree {
    var callee := Node(0, Id(f), false, 0, Nil, Nil);
    var one := Node(2, ConstInt(1), false, 0, Nil, Nil);
    Node(3, Op(Arith(Add)), false, 0, Node(1, Op(Func), false, 0, callee, one), Nil)
  }

  /** The addition is not compiled: the machine ends with the result of the call and the 1 on
      its stack, and its bottom slot is the result of the call. */
  lemma CallPlusOneLeavesTwo(sys: Sys, text: seq<byte>, f: Symbol, m: Store)
    requires f.cls.SysCall? && Loaded(text, Own(Check(CallPlusOneTree(f), false)))
    ensures Encodes(CallPlusOneTree(f), CallPlusOne(f))
    ensures var (r, m1) := sys(f.addr, [], m);
            && Eval(sys, CallPlusOne(f), m) == Value(Wrap(r + 1), m1)
            && Run(Machine(text, 0, STACK_MAX, sys), State(0, [], m)) == At(State(TEXT_MAX, [r, 1], m1))
  {
    hide Run, Own;
    var mc, e := Machine(text, 0, STACK_MAX, sys), CallPlusOne(f);
    var code := Own(Check(CallPlusOneTree(f), false));
    var (r, m1) := sys(f.addr, [], m);
    assert Placed(text, 0, code) by {
      forall k | 0 <= k < |code| ensures text[k] == code[k] { assert text[..|code|][k] == code[k]; }
    }
    CallPlusOneParts(sys, f, m);
    hide Sound, Encodes, EvalAll, Eval, Nodes, WidthOf;
    OperatorNeedsDword(mc, CallPlusOneTree(f), e, 0, [], m);
    assert [] + [r, 1] == [r, 1];
    NoOpsRun(mc, State(|code|, [r, 1], m1));
  }

  lemma CallPlusOneParts(sys: Sys, f: Symbol, m: Store)
    requires f.cls.SysCall?
    ensures var e, (r, m1) := CallPlusOne(f), sys(f.addr, [], m);
            && Encodes(CallPlusOneTree(f), e) && Sound(e.left) && Sound(e.right) && Nodes(e) == 4
            && WidthOf(e.left) == 0
            && Eval(sys, e, m) == Value(Wrap(r + 1), m1)
            && EvalAll(sys, Arg(e.left, Arg(e.right, NoArgs)), m) == Values([r, 1], m1)
  {
    var callee := Var("f", f);
    var call, one := Call(callee, NoArgs), Lit(IntLit(1));
    var (r, m1) := sys(f.addr, [], m);
    assert Eval(sys, callee, m) == Value(f.addr, m);
    assert EvalAll(sys, NoArgs, m) == Values([], m);
    assert Eval(sys, call, m) == Value(r, m1);
    assert EvalAll(sys, Arg(one, NoArgs), m1) == Values([1], m1);
    assert Nodes(callee) == 1 && Nodes(call) == 2 && Nodes(one) == 1;
    var t := CallPlusOneTree(f).child;
    assert Encodes(t.child, callee) && EncodesAll(t.child.sibling, NoArgs);
    assert Encodes(t, call) && Encodes(t.sibling, one);
  }

  // ----- the compiler in place -----

  lemma {:induction false} CheckKeepsIds(t: Tree, b: bool)
    ensures Ids(Check(t, b)) == Ids(t)
    ensures Apart(t) ==> Apart(Check(t, b))
    decreases t
  {
    if t.Node? {
      CheckKeepsIds(t.child, ChildMode(t.kind, b));
      CheckKeepsIds(t.sibling, false);
    }
  }

  /** The attributes of one node, once its child chain has been marked. */
  method MarkNode(nodes: array<NodeRec>, p: Ptr, isAddr: bool)
    requires 0 <= p < nodes.Length && nodes[p].child < nodes.Length
    modifies nodes
    ensures var n := old(nodes[p]);
            nodes[..] == old(nodes[..])[p := n.(
              addr := if n.kind.Id? && n.kind.sym.cls.SysCall? then n.addr else n.addr || isAddr,
              width := if n.child != NULL then old(nodes[n.child].width) else OwnWidth(n.kind, n.width))]
  {
    var child := nodes[p].child;
    ghost var w := if child != NULL then nodes[child].width else 0;
    if !(nodes[p].kind.Id? && nodes[p].kind.sym.cls.SysCall?) {
      nodes[p] := nodes[p].(addr := nodes[p].addr || isAddr);
    }
    if child != NULL {
      nodes[p] := nodes[p].(width := nodes[child].width);
      return;
    }
    nodes[p] := nodes[p].(width := OwnWidth(nodes[p].kind, nodes[p].width));
  }

  /** finsh_type_check: afterwards the table holds the marked tree, and no record outside
      the tree has changed. */
  method TypeCheck(nodes: array<NodeRec>, p: Ptr, isAddr: bool, ghost t: Tree)
    requires Shape(nodes[..], p, t) && Apart(t)
    modifies nodes
    ensures Shape(nodes[..], p, Check(t, isAddr))
    ensures forall i :: 0 <= i < nodes.Length && i !in Ids(t) ==> nodes[i] == old(nodes[i])
    decreases t
  {
    hide Shape, Ids, Apart;
    NodeParts(nodes[..], p, t);
    if p == NULL { return; }
    var child, sibling, mode := nodes[p].child, nodes[p].sibling, ChildMode(nodes[p].kind, isAddr);
    ghost var c, s := Check(t.child, mode), Check(t.sibling, false);
    CheckKeepsIds(t.child, mode);
    CheckKeepsIds(t.sibling, false);
    ghost var tb0 := nodes[..];
    ShapeInTable(tb0, child, t.child);
    ShapeInTable(tb0, sibling, t.sibling);
    TypeCheck(nodes, child, mode, t.child);
    ghost var tb1 := nodes[..];
    ShapeKept(tb0, tb1, sibling, t.sibling);
    TypeCheck(nodes, sibling, false, t.sibling);
    ghost var tb2 := nodes[..];
    ShapeKept(tb1, tb2, child, c);
    MarkNode(nodes, p, isAddr);
    ShapeKept(tb2, nodes[..], child, c);
    ShapeKept(tb2, nodes[..], sibling, s);
    NodeMade(nodes[..], p, Check(t, isAddr));
  }

  lemma NodeParts(tb: Table, p: Ptr, t: Tree)
    requires Shape(tb, p, t) && Apart(t)
    ensures p == NULL <==> t.Nil?
    ensures t.Nil? ==> Shape(tb, p, Nil)
    ensures t.Node? ==>
              && p == t.id && p < |tb| && tb[p].used && tb[p].kind == t.kind
              && tb[p].addr == t.addr && tb[p].width == t.width
              && Shape(tb, tb[p].child, t.child) && Shape(tb, tb[p].sibling, t.sibling)
              && Apart(t.child) && Apart(t.sibling) && Ids(t.child) !! Ids(t.sibling)
              && t.id !in Ids(t.child) && t.id !in Ids(t.sibling)
              && Ids(t) == {t.id} + Ids(t.child) + Ids(t.sibling)
  {
  }

  lemma NodeMade(tb: Table, p: Ptr, t: Tree)
    requires t.Node? && p == t.id && p < |tb| && tb[p].used && tb[p].kind == t.kind
    requires tb[p].addr == t.addr && tb[p].width == t.width
    requires Shape(tb, tb[p].child, t.child) && Shape(tb, tb[p].sibling, t.sibling)
    ensures Shape(tb, p, t)
  {
  }

  /** `code` was written at `pc` and nothing else in the text changed. */
  ghost predicate Wrote(before: seq<byte>, pc: nat, code: seq<byte>, after: seq<byte>) {
    pc + |code| <= |before| && after == before[..pc] + code + before[pc + |code|..]
  }

  lemma WroteMore(t0: seq<byte>, pc: nat, a: seq<byte>, t1: seq<byte>, b: seq<byte>, t2: seq<byte>)
    requires Wrote(t0, pc, a, t1) && Wrote(t1, pc + |a|, b, t2)
    ensures Wrote(t0, pc, a + b, t2)
  {
    assert t1[..pc + |a|] == t0[..pc] + a;
    assert t1[pc + |a| + |b|..] == t0[pc + |a| + |b|..];
    assert t0[..pc] + a + b == t0[..pc] + (a + b);
  }

  lemma WroteThree(t0: seq<byte>, pc: nat, a: seq<byte>, t1: seq<byte>, b: seq<byte>, t2: seq<byte>,
                   c: seq<byte>, t3: seq<byte>)
    requires Wrote(t0, pc, a, t1) && Wrote(t1, pc + |a|, b, t2) && Wrote(t2, pc + |a| + |b|, c, t3)
    ensures Wrote(t0, pc, (a + b) + c, t3)
  {
    hide Wrote;
    WroteMore(t0, pc, a, t1, b, t2);
    assert |a + b| == |a| + |b|;
    WroteMore(t0, pc, a + b, t2, c, t3);
  }

  lemma WroteNothing(text: seq<byte>, pc: nat)
    requires pc <= |text|
    ensures Wrote(text, pc, [], text)
  {
    assert text[..pc] + [] + text[pc..] == text;
  }

  /** Load the variable, add or subtract 1. */
  function BumpedLoad(s: Symbol, width: nat, op: BinOp): seq<byte>
    requires 1 <= width <= 3
  {
    Wide(OP_LD_VALUE_BYTE, width) + Bytes32(s.addr) + EmitOne(width) + Wide(ByteOpcode(op), width)
  }

  function StepBytes(s: Symbol, width: nat, prefix: bool, arith: BinOp): seq<byte>
    requires 1 <= width <= 3
  {
    (if prefix then [] else [OP_LD_DWORD] + Bytes32(s.addr)) + BumpedLoad(s, width, arith)
    + (Wide(OP_ST_BYTE, width) + [if prefix then OP_LD_VALUE_DWORD_STACK else OP_POP])
  }

  lemma StepPieces(op: SysOp, s: Symbol, width: nat)
    requires 1 <= width <= 3
    ensures EmitStep(op, s, width)
         == StepBytes(s, width, op == PreInc || op == PreDec, if op == PreInc || op == PostInc then Add else Sub)
  {
    hide Wide, EmitOne, ByteOpcode, Bytes32;
  }

  /** The node at `p` and the code of its tree, one level down. */
  lemma CodePieces(tb: Table, p: Ptr, t: Tree)
    requires Shape(tb, p, t)
    ensures p == NULL <==> t.Nil?
    ensures t.Nil? ==> Code(t) == []
    ensures t.Node? ==> p == t.id && p < |tb| && Shape(tb, tb[p].child, t.child) && Shape(tb, tb[p].sibling, t.sibling)
    ensures t.Node? ==>
              Own(t) == Code(t.child) + Emit(t.kind, t.addr, t.width, t.child) && Code(t) == Own(t) + Code(t.sibling)
  {
    hide Emit;
  }

  lemma NextStatement(done: seq<byte>, t: Tree)
    requires t.Node?
    ensures t.sibling.Nil? ==> done + StatementsCode(t) == (done + Own(t)) + StatementsCode(t.sibling)
    ensures t.sibling.Node? ==> done + StatementsCode(t) == ((done + Own(t)) + [OP_POP]) + StatementsCode(t.sibling)
  {
    hide Own;
  }

  class Compiler {
    const nodes: array<NodeRec>
    const text: array<byte>
    var pc: nat

    constructor (nodes: array<NodeRec>, text: array<byte>)
      ensures this.nodes == nodes && this.text == text && pc == 0
    {
      this.nodes, this.text, pc := nodes, text, 0;
    }

    ghost predicate Valid()
      reads this
    {
      text.Length == TEXT_MAX && pc <= TEXT_MAX
    }

    /** finsh_code_byte. */
    method CodeByte(b: byte)
      requires Valid() && pc + 1 <= TEXT_MAX
      modifies `pc, text
      ensures Valid() && pc == old(pc) + 1 && Wrote(old(text[..]), old(pc), [b], text[..])
    {
      text[pc] := b;
      pc := pc + 1;
    }

    /** finsh_code_dword. */
    method CodeDword(w: word)
      requires Valid() && pc + 4 <= TEXT_MAX
      modifies `pc, text
      ensures Valid() && pc == old(pc) + 4 && Wrote(old(text[..]), old(pc), Bytes32(w), text[..])
    {
      text[pc] := w % 0x100;
      text[pc + 1] := w / 0x100 % 0x100;
      text[pc + 2] := w / 0x1_0000 % 0x100;
      text[pc + 3] := w / 0x100_0000;
      pc := pc + 4;
    }

    /** The byte, word or dword form of an opcode; nothing for any other data type. */
    method CodeWide(byteOp: byte, width: nat)
      requires byteOp < 0x30 && Valid() && pc + |Wide(byteOp, width)| <= TEXT_MAX
      modifies `pc, text
      ensures Valid() && pc == old(pc) + |Wide(byteOp, width)|
      ensures Wrote(old(text[..]), old(pc), Wide(byteOp, width), text[..])
    {
      if 1 <= width <= 3 {
        CodeByte(byteOp + width - 1);
      }
    }

    /** An opcode followed by a dword operand. */
    method CodeOperand(op: byte, w: word)
      requires Valid() && pc + 5 <= TEXT_MAX
      modifies `pc, text
      ensures Valid() && pc == old(pc) + 5 && Wrote(old(text[..]), old(pc), [op] + Bytes32(w), text[..])
    {
      CodeByte(op);
      ghost var t1 := text[..];
      CodeDword(w);
      WroteMore(old(text[..]), old(pc), [op], t1, Bytes32(w), text[..]);
    }

    /** The constant 1 at a data type. */
    method CodeOne(width: nat)
      requires 1 <= width <= 3 && Valid() && pc + |EmitOne(width)| <= TEXT_MAX
      modifies `pc, text
      ensures Valid() && pc == old(pc) + |EmitOne(width)|
      ensures Wrote(old(text[..]), old(pc), EmitOne(width), text[..])
    {
      hide Wrote, Bytes32;
      ghost var t0, p := text[..], pc;
      if width == 3 {
        CodeOperand(OP_LD_DWORD, 1);
      } else if width == 2 {
        CodePair([OP_LD_WORD], [1]);
        ghost var t1 := text[..];
        CodeByte(0);
        WroteMore(t0, p, [OP_LD_WORD] + [1], t1, [0], text[..]);
        assert [OP_LD_WORD] + [1] + [0] == EmitOne(2);
      } else {
        CodePair([OP_LD_BYTE], [1]);
        assert [OP_LD_BYTE] + [1] == EmitOne(1);
      }
    }

    method CodeId(s: Symbol, addr: bool)
      requires Valid() && pc + |EmitId(s, addr)| <= TEXT_MAX
      modifies `pc, text
      ensures Valid() && pc == old(pc) + |EmitId(s, addr)|
      ensures Wrote(old(text[..]), old(pc), EmitId(s, addr), text[..])
    {
      if s.cls.SysCall? {
        CodeOperand(OP_LD_DWORD, s.addr);
      } else {
        match s.ty
        case TyUnknown =>
        case TyVoid =>
        case TyVoidP =>
        case _ =>
          CodeOperand(if addr then OP_LD_DWORD else OP_LD_VALUE_BYTE + DataType(s.ty) - 1, s.addr);
      }
    }

    method CodeBumpedLoad(s: Symbol, width: nat, op: BinOp)
      requires 1 <= width <= 3 && Valid() && pc + |BumpedLoad(s, width, op)| <= TEXT_MAX
      modifies `pc, text
      ensures Valid() && pc == old(pc) + |BumpedLoad(s, width, op)|
      ensures Wrote(old(text[..]), old(pc), BumpedLoad(s, width, op), text[..])
    {
      hide EmitOne, Wrote, Wide, Bytes32, ByteOpcode;
      ghost var t0, p, done := text[..], pc, Wide(OP_LD_VALUE_BYTE, width);
      CodeWide(OP_LD_VALUE_BYTE, width);
      ghost var t1 := text[..];
      CodeDword(s.addr);
      WroteMore(t0, p, done, t1, Bytes32(s.addr), text[..]);
      done, t1 := done + Bytes32(s.addr), text[..];
      CodeOne(width);
      WroteMore(t0, p, done, t1, EmitOne(width), text[..]);
      done, t1 := done + EmitOne(width), text[..];
      CodeWide(ByteOpcode(op), width);
      WroteMore(t0, p, done, t1, Wide(ByteOpcode(op), width), text[..]);
    }

    method CodeStoreThen(width: nat, last: byte)
      requires Valid() && pc + |Wide(OP_ST_BYTE, width)| + 1 <= TEXT_MAX
      modifies `pc, text
      ensures Valid() && pc == old(pc) + |Wide(OP_ST_BYTE, width)| + 1
      ensures Wrote(old(text[..]), old(pc), Wide(OP_ST_BYTE, width) + [last], text[..])
    {
      hide Wrote;
      ghost var t0, p := text[..], pc;
      CodeWide(OP_ST_BYTE, width);
      ghost var t1 := text[..];
      CodeByte(last);
      WroteMore(t0, p, Wide(OP_ST_BYTE, width), t1, [last], text[..]);
    }

    /** Pre- and post-increment and decrement of a shell variable. */
    method CodeStep(op: SysOp, s: Symbol, width: nat)
      requires Valid() && pc + |EmitStep(op, s, width)| <= TEXT_MAX
      modifies `pc, text
      ensures Valid() && pc == old(pc) + |EmitStep(op, s, width)|
      ensures Wrote(old(text[..]), old(pc), EmitStep(op, s, width), text[..])
    {
      WroteNothing(text[..], pc);
      if 1 <= width <= 3 {
        StepPieces(op, s, width);
        var prefix := op == PreInc || op == PreDec;
        CodeStepPieces(s, width, prefix, if op == PreInc || op == PostInc then Add else Sub);
      }
    }

    method CodeStepPieces(s: Symbol, width: nat, prefix: bool, arith: BinOp)
      requires 1 <= width <= 3 && Valid() && pc + |StepBytes(s, width, prefix, arith)| <= TEXT_MAX
      modifies `pc, text
      ensures Valid() && pc == old(pc) + |StepBytes(s, width, prefix, arith)|
      ensures Wrote(old(text[..]), old(pc), StepBytes(s, width, prefix, arith), text[..])
    {
      ghost var a := if prefix then [] else [OP_LD_DWORD] + Bytes32(s.addr);
      var last := if prefix then OP_LD_VALUE_DWORD_STACK else OP_POP;
      ghost var b, c := BumpedLoad(s, width, arith), Wide(OP_ST_BYTE, width) + [last];
      assert StepBytes(s, width, prefix, arith) == (a + b) + c && |c| == |Wide(OP_ST_BYTE, width)| + 1;
      hide StepBytes, BumpedLoad, Wrote, Bytes32, Wide;
      ghost var t0, p := text[..], pc;
      CodeAddress(s.addr, prefix);
      ghost var t1 := text[..];
      CodeBumpedLoad(s, width, arith);
      ghost var t2 := text[..];
      CodeStoreThen(width, last);
      WroteThree(t0, p, a, t1, b, t2, c, text[..]);
    }

    /** The address a postfix form stores to; the prefix forms find it on the stack. */
    method CodeAddress(a: word, skip: bool)
      requires Valid() && pc + (if skip then 0 else 5) <= TEXT_MAX
      modifies `pc, text
      ensures Valid() && pc == old(pc) + (if skip then 0 else 5)
      ensures Wrote(old(text[..]), old(pc), if skip then [] else [OP_LD_DWORD] + Bytes32(a), text[..])
    {
      hide Wrote, Bytes32;
      WroteNothing(text[..], pc);
      if !skip { CodeOperand(OP_LD_DWORD, a); }
    }

    /** SiblingCount, as the FINSH_NODE_SYS_FUNC case counts it. */
    method CountParameters(first: Ptr, ghost t: Tree) returns (n: nat)
      requires Shape(nodes[..], first, t)
      ensures n == SiblingCount(t)
    {
      n := 0;
      var sibling := first;
      ghost var rest := t;
      while sibling != NULL
        invariant Shape(nodes[..], sibling, rest) && n + SiblingCount(rest) == SiblingCount(t)
        decreases rest
      {
        n := n + 1;
        sibling, rest := nodes[sibling].sibling, rest.sibling;
      }
    }

    /** A dword constant. */
    method CodeConst(w: word)
      requires Valid() && pc + 5 <= TEXT_MAX
      modifies `pc, text
      ensures Valid() && pc == old(pc) + 5 && Wrote(old(text[..]), old(pc), [OP_LD_DWORD] + Bytes32(w), text[..])
    {
      CodeOperand(OP_LD_DWORD, w);
    }

    /** Store, then load the stored value again. */
    method CodeStoreReload(width: nat)
      requires Valid() && pc + |Wide(OP_ST_BYTE, width)| + |Wide(OP_LD_VALUE_BYTE_STACK, width)| <= TEXT_MAX
      modifies `pc, text
      ensures var code := Wide(OP_ST_BYTE, width) + Wide(OP_LD_VALUE_BYTE_STACK, width);
              Valid() && pc == old(pc) + |code| && Wrote(old(text[..]), old(pc), code, text[..])
    {
      CodePair(Wide(OP_ST_BYTE, width), Wide(OP_LD_VALUE_BYTE_STACK, width));
    }

    /** Up to two bytes. */
    method CodePair(first: seq<byte>, second: seq<byte>)
      requires |first| <= 1 && |second| <= 1 && Valid() && pc + |first| + |second| <= TEXT_MAX
      modifies `pc, text
      ensures Valid() && pc == old(pc) + |first| + |second|
      ensures Wrote(old(text[..]), old(pc), first + second, text[..])
    {
      hide Wrote;
      ghost var t0, p := text[..], pc;
      CodeUpToOne(first);
      ghost var t1 := text[..];
      CodeUpToOne(second);
      WroteMore(t0, p, first, t1, second, text[..]);
    }

    method CodeUpToOne(bs: seq<byte>)
      requires |bs| <= 1 && Valid() && pc + |bs| <= TEXT_MAX
      modifies `pc, text
      ensures Valid() && pc == old(pc) + |bs| && Wrote(old(text[..]), old(pc), bs, text[..])
    {
      WroteNothing(text[..], pc);
      if |bs| == 1 {
        assert bs == [bs[0]];
        CodeByte(bs[0]);
      }
    }

    /** The switch of finsh_compile: identifiers and constants. */
    method EmitNode(p: Ptr, ghost t: Tree)
      requires Shape(nodes[..], p, t) && t.Node?
      requires Valid() && pc + |Emit(t.kind, t.addr, t.width, t.child)| <= TEXT_MAX
      modifies `pc, text
      ensures Valid() && pc == old(pc) + |Emit(t.kind, t.addr, t.width, t.child)|
      ensures Wrote(old(text[..]), old(pc), Emit(t.kind, t.addr, t.width, t.child), text[..])
    {
      hide Wrote, EmitId;
      var n := nodes[p];
      match n.kind
      case Id(s) => CodeId(s, n.addr);
      case ConstChar(c) => CodePair([OP_LD_BYTE], [c]); assert [OP_LD_BYTE] + [c] == [OP_LD_BYTE, c];
      case ConstInt(w) => CodeConst(w);
      case ConstLong(w) => CodeConst(w);
      case ConstPtr(w) => CodeConst(w);
      case Op(op) => EmitOp(op, n, t);
    }

    /** The switch of finsh_compile: operators, calls, assignments, steps. */
    method EmitOp(op: SysOp, n: NodeRec, ghost t: Tree)
      requires t.Node? && Shape(nodes[..], t.id, t) && nodes[t.id] == n && n.kind == Op(op)
      requires Valid() && pc + |Emit(t.kind, t.addr, t.width, t.child)| <= TEXT_MAX
      modifies `pc, text
      ensures Valid() && pc == old(pc) + |Emit(t.kind, t.addr, t.width, t.child)|
      ensures Wrote(old(text[..]), old(pc), Emit(t.kind, t.addr, t.width, t.child), text[..])
    {
      hide Wrote, EmitStep, EmitId, ByteOpcode, SiblingCount;
      WroteNothing(text[..], pc);
      match op
      case Arith(bin) => CodeWide(ByteOpcode(bin), n.width);
      case BitNot => CodeWide(OP_BITWISE_BYTE, n.width);
      case Func =>
        if n.child != NULL {
          var parameters := CountParameters(nodes[n.child].sibling, t.child.sibling);
          CodePair([OP_SYSCALL], [parameters % 0x100]);
          assert [OP_SYSCALL] + [parameters % 0x100] == [OP_SYSCALL, parameters % 0x100];
        }
      case SetTo =>
        if n.child != NULL {
          if nodes[n.child].kind.Id? {
            CodeStoreReload(nodes[n.child].width);
          } else if nodes[n.child].kind == Op(GetValue) {
            CodeStoreReload(nodes[n.child].width % 16);
          }
        }
      case GetValue => if !n.addr { CodeWide(OP_LD_VALUE_BYTE_STACK, n.width); }
      case GetAddr =>
      case SysNull => CodeDword(0);
      case Cast =>
      case _ =>
        if n.child != NULL && nodes[n.child].kind.Id? {
          CodeStep(op, nodes[n.child].kind.sym, n.width);
        }
    }

    /** finsh_compile: child, node, sibling. */
    method Compile(p: Ptr, ghost t: Tree)
      requires Shape(nodes[..], p, t) && Valid() && pc + |Code(t)| <= TEXT_MAX
      modifies `pc, text
      ensures Valid() && pc == old(pc) + |Code(t)| && Wrote(old(text[..]), old(pc), Code(t), text[..])
      decreases t
    {
      hide Wrote, Emit, Apart, Shape, Code, Own;
      ghost var t0, p0 := text[..], pc;
      CodePieces(nodes[..], p, t);
      if p == NULL {
        WroteNothing(t0, p0);
        return;
      }
      ghost var a, b, c := Code(t.child), Emit(t.kind, t.addr, t.width, t.child), Code(t.sibling);
      assert Code(t) == (a + b) + c && |Code(t)| == |a| + |b| + |c|;
      Compile(nodes[p].child, t.child);
      ghost var t1 := text[..];
      EmitNode(p, t);
      ghost var t2 := text[..];
      Compile(nodes[p].sibling, t.sibling);
      WroteThree(t0, p0, a, t1, b, t2, c, text[..]);
    }

    /** finsh_compiler_run: mark the tree, clear the text, and compile statement by statement,
        cutting each one off its successors first. */
    method CompileStatements(root: Ptr, ghost t: Tree)
      requires Shape(nodes[..], root, t) && Apart(t) && text.Length == TEXT_MAX
      requires |StatementsCode(Check(t, false))| <= TEXT_MAX
      modifies `pc, text, nodes
      ensures Loaded(text[..], StatementsCode(Check(t, false)))
    {
      hide Own, Code, Loaded, Apart, Shape, Check;
      TypeCheck(nodes, root, false, t);
      ghost var rest := Check(t, false);
      CheckKeepsIds(t, false);
      ghost var code, done: seq<byte> := StatementsCode(rest), [];
      ClearText();
      var sibling := root;
      NullIsNil(nodes[..], sibling, rest);
      while sibling != NULL
        invariant Valid() && Shape(nodes[..], sibling, rest) && Apart(rest) && (sibling == NULL <==> rest.Nil?)
        invariant Loaded(text[..], done) && pc == |done| && done + StatementsCode(rest) == code
        decreases rest
      {
        NextStatement(done, rest);
        sibling := CompileOne(sibling, rest, done);
        done := done + Own(rest);
        rest := rest.sibling;
        NullIsNil(nodes[..], sibling, rest);
        if sibling != NULL {
          ghost var t0 := text[..];
          CodeByte(OP_POP);
          StillLoaded(t0, done, [OP_POP], text[..]);
          done := done + [OP_POP];
        }
      }
      assert done + [] == done;
    }

    /** One statement: unlink it from its sibling and append its code. */
    method CompileOne(current: Ptr, ghost t: Tree, ghost done: seq<byte>) returns (sibling: Ptr)
      requires Valid() && t.Node? && Shape(nodes[..], current, t) && Apart(t)
      requires Loaded(text[..], done) && pc == |done| && |done + Own(t)| <= TEXT_MAX
      modifies `pc, text, nodes
      ensures Valid() && Shape(nodes[..], sibling, t.sibling) && Apart(t.sibling)
      ensures Loaded(text[..], done + Own(t)) && pc == |done + Own(t)|
    {
      hide Own, Code, Loaded;
      ghost var tb, text0, own := nodes[..], text[..], t.(sibling := Nil);
      sibling := nodes[current].sibling;
      nodes[current] := nodes[current].(sibling := NULL);
      CutSibling(tb, nodes[..], current, t);
      OwnWithoutSibling(t, own);
      Compile(current, own);
      StillLoaded(text0, done, Own(t), text[..]);
    }

    /** memset(&text_segment[0], 0, ...) and the reset of finsh_compile_pc. */
    method ClearText()
      requires text.Length == TEXT_MAX
      modifies `pc, text
      ensures Valid() && pc == 0 && Loaded(text[..], [])
    {
      pc := 0;
      for i := 0 to text.Length
        invariant pc == 0 && forall k :: 0 <= k < i ==> text[k] == OP_NOOP
      {
        text[i] := OP_NOOP;
      }
    }
  }

  lemma OwnWithoutSibling(t: Tree, u: Tree)
    requires t.Node? && u == t.(sibling := Nil)
    ensures Code(u) == Own(t)
  {
    hide Emit;
    assert Own(u) == Code(u.child) + Emit(u.kind, u.addr, u.width, u.child) == Own(t);
    assert Code(u) == Own(u) + [];
  }

  lemma NullIsNil(tb: Table, p: Ptr, t: Tree)
    requires Shape(tb, p, t)
    ensures p == NULL <==> t.Nil?
  {
  }

  lemma CutSibling(tb: Table, tb': Table, p: Ptr, t: Tree)
    requires t.Node? && Shape(tb, p, t) && Apart(t) && tb' == tb[p := tb[p].(sibling := NULL)]
    ensures Shape(tb', p, t.(sibling := Nil)) && Shape(tb', tb[p].sibling, t.sibling)
  {
    ShapeInTable(tb, tb[p].child, t.child);
    ShapeInTable(tb, tb[p].sibling, t.sibling);
    ShapeKept(tb, tb', tb[p].child, t.child);
    ShapeKept(tb, tb', tb[p].sibling, t.sibling);
  }

  lemma StillLoaded(before: seq<byte>, done: seq<byte>, code: seq<byte>, after: seq<byte>)
    requires Loaded(before, done) && Wrote(before, |done|, code, after)
    ensures Loaded(after, done + code)
  {
    assert after[..|done + code|] == done + code;
  }

  // ----- a line, from tree to result -----

  /** finsh_compiler_run followed by finsh_vm_run on a parsed line: the machine stops
      exactly when the statements have a value; then the bottom slot is the value of the
      last one and the store is the one the statements leave. */
  method RunLine(vm: Vm, nodes: array<NodeRec>, root: Ptr, ghost t: Tree, ghost es: Exprs) returns (ok: bool)
    requires vm.Valid() && Shape(nodes[..], root, t) && Apart(t)
    requires es.Arg? && EncodesAll(t, es) && SoundAll(es)
    requires Size(t) <= NODE_MAX && |StatementsCode(Check(t, false))| <= TEXT_MAX
    modifies vm, vm.text, vm.stack, nodes
    ensures vm.Valid()
    ensures var r := EvalStatements(vm.sys, es, old(vm.store));
            && ok == r.Value?
            && (ok ==> vm.sp == 1 && vm.stack[0] == r.w && vm.store == r.store)
  {
    hide Run, Eval;
    var compiler := new Compiler(nodes, vm.text);
    compiler.CompileStatements(root, t);
    ProgramRuns(vm.sys, vm.text[..], t, es, vm.store);
    ok := vm.Execute();
    assert ok ==> vm.Abs().stack == vm.stack[..vm.sp];
  }
}
