/** Expressions of the finsh shell, what they mean, and the child/sibling trees that the
    parser builds for them. */
module FinshSyntax {
  import opened Basics
  import opened FinshWords

  // ----- symbols -----

  datatype FinshType =
    | TyUnknown | TyVoid | TyVoidP | TyChar | TyUChar | TyCharP
    | TyShort | TyUShort | TyShortP | TyInt | TyUInt | TyIntP
    | TyLong | TyULong | TyLongP

  /** Where an identifier was found: a shell variable, a system variable or a system call. */
  datatype SymbolClass = FinshVar | SysVar | SysCall

  datatype Symbol = Symbol(cls: SymbolClass, ty: FinshType, addr: word)

  // ----- expressions -----

  datatype Literal = IntLit(w: word) | LongLit(w: word) | CharLit(c: byte) | NullLit

  datatype Expr =
    | Lit(lit: Literal)
    | Var(name: string, sym: Symbol)
    | Bin(op: BinOp, left: Expr, right: Expr)
    | Not(arg: Expr)
    | Neg(arg: Expr)
    | Pos(arg: Expr)
    | Deref(arg: Expr)
    | AddrOf(arg: Expr)
    | Assign(left: Expr, right: Expr)
    | Step(prefix: bool, up: bool, arg: Expr)
    | Call(callee: Expr, args: Exprs)

  datatype Exprs = NoArgs | Arg(head: Expr, tail: Exprs) {
    function Count(): nat {
      if NoArgs? then 0 else 1 + tail.Count()
    }
  }

  // ----- evaluation -----

  /** What a system call does to the store and what it returns, as seen from the shell. */
  type Sys = (word, seq<word>, Store) -> (word, Store)

  datatype Result = Fault | Value(w: word, store: Store)

  datatype Results = Faults | Values(ws: seq<word>, store: Store)

  /** The value of `e`, evaluating operands left to right. */
  function Eval(sys: Sys, e: Expr, m: Store): Result {
    match e
    case Lit(IntLit(w)) => Value(w, m)
    case Lit(LongLit(w)) => Value(w, m)
    case Lit(CharLit(c)) => Value(c, m)
    case Lit(NullLit) => Value(0, m)
    case Var(_, s) =>
      if s.cls.SysCall? then Value(s.addr, m) else LoadAt(m, s.addr)
    case Bin(op, l, r) =>
      (match Eval(sys, l, m)
       case Fault => Fault
       case Value(x, m1) =>
         match Eval(sys, r, m1)
         case Fault => Fault
         case Value(y, m2) => if Apply(op, x, y).Some? then Value(Apply(op, x, y).value, m2) else Fault)
    case Not(a) =>
      (match Eval(sys, a, m) case Fault => Fault case Value(x, m1) => Value(Complement(x), m1))
    case Neg(a) =>
      (match Eval(sys, a, m) case Fault => Fault case Value(x, m1) => Value(Wrap(WORD_LIMIT - x), m1))
    case Pos(a) => Eval(sys, a, m)
    case Deref(a) =>
      (match Eval(sys, a, m) case Fault => Fault case Value(x, m1) => LoadAt(m1, x))
    case AddrOf(l) => Address(sys, l, m)
    case Assign(l, r) =>
      (match Address(sys, l, m)
       case Fault => Fault
       case Value(a, m1) =>
         match Eval(sys, r, m1)
         case Fault => Fault
         case Value(x, m2) => if Mapped(m2, a) then Value(x, Save(m2, a, x).value) else Fault)
    case Step(prefix, up, l) =>
      (match Address(sys, l, m)
       case Fault => Fault
       case Value(a, m1) =>
         if !Mapped(m1, a) then Fault
         else
           var before := Load(m1, a).value;
           var after := Bumped(before, up);
           Value(if prefix then after else before, Save(m1, a, after).value))
    case Call(f, args) =>
      match Eval(sys, f, m)
      case Fault => Fault
      case Value(g, m1) =>
        match EvalAll(sys, args, m1)
        case Faults => Fault
        case Values(ws, m2) => var (r, m3) := sys(g, ws, m2); Value(r, m3)
  }

  /** The address an lvalue denotes. */
  function Address(sys: Sys, e: Expr, m: Store): Result {
    match e
    case Var(_, s) => Value(s.addr, m)
    case Deref(a) => Eval(sys, a, m)
    case _ => Fault
  }

  function EvalAll(sys: Sys, es: Exprs, m: Store): (rs: Results)
    ensures rs.Values? ==> |rs.ws| == es.Count()
  {
    match es
    case NoArgs => Values([], m)
    case Arg(e, rest) =>
      match Eval(sys, e, m)
      case Fault => Faults
      case Value(x, m1) =>
        match EvalAll(sys, rest, m1)
        case Faults => Faults
        case Values(ws, m2) => Values([x] + ws, m2)
  }

  function LoadAt(m: Store, a: word): Result {
    if Load(m, a).Some? then Value(Load(m, a).value, m) else Fault
  }

  // ----- trees -----

  datatype SysOp =
    | Arith(bin: BinOp) | BitNot | Func | SetTo | Cast
    | PreInc | PreDec | PostInc | PostDec | GetValue | GetAddr | SysNull

  datatype Kind =
    | Id(sym: Symbol)
    | ConstChar(c: byte) | ConstInt(w: word) | ConstLong(w: word)
    | ConstPtr(w: word)
    | Op(op: SysOp)

  /** A node of the node table together with everything reachable from it: the first
      operand hangs off `child`, the later ones off the first one's `sibling`. `id` is the
      node's place in the table, `addr` the address bit of its `idtype`, `width` its
      data type (0 void, 1 byte, 2 word, 3 dword). */
  datatype Tree =
    | Nil
    | Node(id: nat, kind: Kind, addr: bool, width: nat, child: Tree, sibling: Tree)

  function Ids(t: Tree): set<nat> {
    match t
    case Nil => {}
    case Node(id, _, _, _, c, s) => {id} + Ids(c) + Ids(s)
  }

  /** No table entry is used twice. */
  predicate Apart(t: Tree) {
    match t
    case Nil => true
    case Node(id, _, _, _, c, s) =>
      id !in Ids(c) && id !in Ids(s) && Ids(c) !! Ids(s) && Apart(c) && Apart(s)
  }

  function LitKind(l: Literal): Kind {
    match l
    case IntLit(w) => ConstInt(w)
    case LongLit(w) => ConstLong(w)
    case CharLit(c) => ConstChar(c)
    case NullLit => ConstPtr(0)
  }

  function StepOp(prefix: bool, up: bool): SysOp {
    if prefix then (if up then PreInc else PreDec) else (if up then PostInc else PostDec)
  }

  /** A node as the parser leaves it, before the type check has marked it. */
  predicate Plain(t: Tree, k: Kind) {
    t.Node? && t.kind == k && !t.addr && t.width == 0
  }

  predicate Leaf(t: Tree, k: Kind) {
    Plain(t, k) && t.child.Nil?
  }

  /** `t` is the tree of `e`; what follows `t` as its sibling does not matter. */
  predicate Encodes(t: Tree, e: Expr)
    decreases t, e
  {
    t.Node? &&
    match e
    case Lit(l) => Leaf(t, LitKind(l))
    case Var(_, s) => Leaf(t, Id(s))
    case Bin(op, l, r) => Plain(t, Op(Arith(op))) && Two(t) && Encodes(t.child, l) && Encodes(t.child.sibling, r)
    case Not(a) => Plain(t, Op(BitNot)) && One(t) && Encodes(t.child, a)
    case Neg(a) =>
      Plain(t, Op(Arith(Sub))) && Two(t) && Leaf(t.child, ConstLong(0)) && Encodes(t.child.sibling, a)
    case Pos(a) => Encodes(t, a)
    case Deref(a) => Plain(t, Op(GetValue)) && One(t) && Encodes(t.child, a)
    case AddrOf(a) => Plain(t, Op(GetAddr)) && One(t) && Encodes(t.child, a)
    case Assign(l, r) => Plain(t, Op(SetTo)) && Two(t) && Encodes(t.child, l) && Encodes(t.child.sibling, r)
    case Step(prefix, up, a) => Plain(t, Op(StepOp(prefix, up))) && One(t) && Encodes(t.child, a)
    case Call(f, args) =>
      Plain(t, Op(Func)) && t.child.Node? && Encodes(t.child, f) && EncodesAll(t.child.sibling, args)
  }

  /** Exactly one operand, exactly two operands. */
  predicate One(t: Tree) {
    t.Node? && t.child.Node? && t.child.sibling.Nil?
  }

  predicate Two(t: Tree) {
    t.Node? && t.child.Node? && t.child.sibling.Node? && t.child.sibling.sibling.Nil?
  }

  /** A chain of siblings, one tree for each expression and nothing after the last. */
  predicate EncodesAll(t: Tree, es: Exprs)
    decreases t, es
  {
    match es
    case NoArgs => t.Nil?
    case Arg(e, rest) => Encodes(t, e) && EncodesAll(t.sibling, rest)
  }
}
