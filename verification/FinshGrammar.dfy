/** The shell's tokens, which expressions can be written without parentheses, how they are
    written, and the spines of operators that the parser's loops run along. */
module FinshGrammar {
  import opened Basics
  import opened FinshWords
  import opened FinshSyntax

  datatype Token =
    | Ident(name: string)
    | IntTok(w: word) | LongTok(w: word) | CharTok(c: byte) | NullTok
    | BinTok(op: BinOp)
    | AssignTok | BitwiseTok | IncTok | DecTok
    | LeftParen | RightParen | Comma | Semicolon
    | Eof

  // ----- precedence -----

  const ASSIGN: nat := 0
  const OR: nat := 1
  const MULTIPLICATIVE: nat := 6
  const CAST: nat := 7
  const POSTFIX: nat := 8
  const PRIMARY: nat := 9

  function OpLevel(op: BinOp): (l: nat)
    ensures OR <= l <= MULTIPLICATIVE
  {
    match op
    case Or => 1
    case Xor => 2
    case And => 3
    case Shl => 4
    case Shr => 4
    case Add => 5
    case Sub => 5
    case Mul => 6
    case Div => 6
    case Mod => 6
  }

  function Level(e: Expr): (l: nat)
    ensures l <= PRIMARY
  {
    match e
    case Assign(_, _) => ASSIGN
    case Bin(op, _, _) => OpLevel(op)
    case Step(prefix, _, _) => if prefix then CAST else POSTFIX
    case Call(_, _) => POSTFIX
    case Lit(_) => PRIMARY
    case Var(_, _) => PRIMARY
    case _ => CAST
  }

  /** Every operand binds tightly enough to stand where it stands without parentheses. */
  predicate Fits(e: Expr) {
    match e
    case Lit(_) => true
    case Var(_, _) => true
    case Assign(l, r) => Fits(l) && Fits(r) && Level(l) >= OR
    case Bin(op, l, r) => Fits(l) && Fits(r) && Level(l) >= OpLevel(op) && Level(r) > OpLevel(op)
    case Step(prefix, _, a) => Fits(a) && Level(a) >= (if prefix then CAST else POSTFIX)
    case Call(f, args) => Fits(f) && Level(f) >= POSTFIX && FitsAll(args)
    case Neg(a) => Fits(a) && Level(a) >= CAST
    case Pos(a) => Fits(a) && Level(a) >= CAST
    case Not(a) => Fits(a) && Level(a) >= CAST
    case Deref(a) => Fits(a) && Level(a) >= CAST
    case AddrOf(a) => Fits(a) && Level(a) >= CAST
  }

  predicate FitsAll(es: Exprs) {
    es.Arg? ==> Fits(es.head) && FitsAll(es.tail)
  }

  /** Every identifier is the one the symbol tables know by that name. */
  predicate Resolves(e: Expr, lookup: string -> Lookup) {
    match e
    case Lit(_) => true
    case Var(name, sym) => lookup(name) == Found(sym)
    case Assign(l, r) => Resolves(l, lookup) && Resolves(r, lookup)
    case Bin(op, l, r) => Resolves(l, lookup) && Resolves(r, lookup)
    case Step(_, _, a) => Resolves(a, lookup)
    case Call(f, args) => Resolves(f, lookup) && ResolvesAll(args, lookup)
    case Neg(a) => Resolves(a, lookup)
    case Pos(a) => Resolves(a, lookup)
    case Not(a) => Resolves(a, lookup)
    case Deref(a) => Resolves(a, lookup)
    case AddrOf(a) => Resolves(a, lookup)
  }

  datatype Lookup = Missing | Found(sym: Symbol)

  predicate ResolvesAll(es: Exprs, lookup: string -> Lookup) {
    es.Arg? ==> Resolves(es.head, lookup) && ResolvesAll(es.tail, lookup)
  }

  // ----- printing -----

  function LitToken(l: Literal): Token {
    match l
    case IntLit(w) => IntTok(w)
    case LongLit(w) => LongTok(w)
    case CharLit(c) => CharTok(c)
    case NullLit => NullTok
  }

  function StepToken(up: bool): Token {
    if up then IncTok else DecTok
  }

  function Print(e: Expr): (s: seq<Token>)
    ensures |s| > 0
  {
    match e
    case Lit(l) => [LitToken(l)]
    case Var(name, _) => [Ident(name)]
    case Assign(l, r) => Print(l) + ([AssignTok] + Print(r))
    case Bin(op, l, r) => Print(l) + ([BinTok(op)] + Print(r))
    case Step(prefix, up, a) => if prefix then [StepToken(up)] + Print(a) else Print(a) + [StepToken(up)]
    case Call(f, args) => Print(f) + ([LeftParen] + PrintArgs(args) + [RightParen])
    case Neg(a) => [BinTok(Sub)] + Print(a)
    case Pos(a) => [BinTok(Add)] + Print(a)
    case Not(a) => [BitwiseTok] + Print(a)
    case Deref(a) => [BinTok(Mul)] + Print(a)
    case AddrOf(a) => [BinTok(And)] + Print(a)
  }

  /** Arguments, separated by commas. */
  function PrintArgs(es: Exprs): seq<Token> {
    match es
    case NoArgs => []
    case Arg(e, rest) => Print(e) + PrintMore(rest)
  }

  /** The arguments after the first, each behind its comma. */
  function PrintMore(es: Exprs): seq<Token> {
    match es
    case NoArgs => []
    case Arg(e, rest) => [Comma] + (Print(e) + PrintMore(rest))
  }

  /** The level of the loop that would go on with this token. */
  function TakenAt(t: Token): int {
    match t
    case AssignTok => ASSIGN
    case BinTok(op) => OpLevel(op)
    case IncTok => POSTFIX
    case DecTok => POSTFIX
    case LeftParen => POSTFIX
    case _ => -1
  }

  /** Whatever follows is not for a loop of this level or a tighter one. */
  predicate Stops(more: seq<Token>, level: nat) {
    more == [] || TakenAt(more[0]) < level
  }

  // ----- left-associative spines -----

  datatype Item = Item(op: BinOp, arg: Expr)

  /** The leftmost operand of a chain of operators of one level, and the chain. */
  function Base(e: Expr, level: nat): Expr {
    if e.Bin? && OpLevel(e.op) == level then Base(e.left, level) else e
  }

  function Items(e: Expr, level: nat): seq<Item> {
    if e.Bin? && OpLevel(e.op) == level then Items(e.left, level) + [Item(e.op, e.right)] else []
  }

  function Build(b: Expr, items: seq<Item>): Expr
    decreases |items|
  {
    if items == [] then b
    else var n := |items| - 1; Bin(items[n].op, Build(b, items[..n]), items[n].arg)
  }

  function PrintItems(items: seq<Item>): seq<Token>
    decreases |items|
  {
    if items == [] then [] else [BinTok(items[0].op)] + (Print(items[0].arg) + PrintItems(items[1..]))
  }

  lemma {:induction false} BuildBack(e: Expr, level: nat)
    ensures Build(Base(e, level), Items(e, level)) == e
    decreases e
  {
    if e.Bin? && OpLevel(e.op) == level {
      BuildBack(e.left, level);
      var items := Items(e, level);
      assert items[..|items| - 1] == Items(e.left, level);
    }
  }

  lemma {:induction false} PrintItemsSnoc(items: seq<Item>, it: Item)
    ensures PrintItems(items + [it]) == PrintItems(items) + ([BinTok(it.op)] + Print(it.arg))
    decreases |items|
  {
    if items == [] {
      assert PrintItems([it]) == [BinTok(it.op)] + (Print(it.arg) + PrintItems([]));
    } else {
      assert (items + [it])[1..] == items[1..] + [it];
      PrintItemsSnoc(items[1..], it);
    }
  }

  /** A chain is written as its leftmost operand and then operator by operator. */
  lemma {:induction false} PrintIsSpine(e: Expr, level: nat)
    ensures Print(e) == Print(Base(e, level)) + PrintItems(Items(e, level))
    decreases e
  {
    if e.Bin? && OpLevel(e.op) == level {
      PrintIsSpine(e.left, level);
      PrintItemsSnoc(Items(e.left, level), Item(e.op, e.right));
    }
  }

  /** What the operands of a chain owe to the whole. */
  lemma {:induction false} SpineFits(e: Expr, level: nat, lookup: string -> Lookup)
    requires Fits(e) && Level(e) >= level && Resolves(e, lookup) && OR <= level <= MULTIPLICATIVE
    ensures var b := Base(e, level); Fits(b) && Level(b) > level && Resolves(b, lookup)
    ensures forall i {:trigger Items(e, level)[i]} :: 0 <= i < |Items(e, level)| ==>
              var it := Items(e, level)[i];
              OpLevel(it.op) == level && Fits(it.arg) && Level(it.arg) > level && Resolves(it.arg, lookup)
    decreases e
  {
    if e.Bin? && OpLevel(e.op) == level { SpineFits(e.left, level, lookup); }
  }

  // ----- postfix spines -----

  datatype Suffix = Bump(up: bool) | Apply(args: Exprs)

  function PostBase(e: Expr): Expr {
    match e
    case Step(prefix, _, a) => if prefix then e else PostBase(a)
    case Call(f, _) => PostBase(f)
    case _ => e
  }

  function Suffixes(e: Expr): seq<Suffix> {
    match e
    case Step(prefix, up, a) => if prefix then [] else Suffixes(a) + [Bump(up)]
    case Call(f, args) => Suffixes(f) + [Suffix.Apply(args)]
    case _ => []
  }

  function BuildPost(b: Expr, ss: seq<Suffix>): Expr
    decreases |ss|
  {
    if ss == [] then b
    else
      var n := |ss| - 1;
      match ss[n]
      case Bump(up) => Step(false, up, BuildPost(b, ss[..n]))
      case Apply(args) => Call(BuildPost(b, ss[..n]), args)
  }

  function PrintSuffix(s: Suffix): (r: seq<Token>)
    ensures |r| > 0
  {
    match s
    case Bump(up) => [StepToken(up)]
    case Apply(args) => [LeftParen] + PrintArgs(args) + [RightParen]
  }

  function PrintSuffixes(ss: seq<Suffix>): seq<Token>
    decreases |ss|
  {
    if ss == [] then [] else PrintSuffix(ss[0]) + PrintSuffixes(ss[1..])
  }

  lemma {:induction false} BuildPostBack(e: Expr)
    ensures BuildPost(PostBase(e), Suffixes(e)) == e
    decreases e
  {
    var ss := Suffixes(e);
    match e
    case Step(prefix, up, a) => if !prefix { BuildPostBack(a); assert ss[..|ss| - 1] == Suffixes(a); }
    case Call(f, args) => BuildPostBack(f); assert ss[..|ss| - 1] == Suffixes(f);
    case _ =>
  }

  lemma {:induction false} PrintSuffixesSnoc(ss: seq<Suffix>, s: Suffix)
    ensures PrintSuffixes(ss + [s]) == PrintSuffixes(ss) + PrintSuffix(s)
    decreases |ss|
  {
    if ss == [] {
      assert PrintSuffixes([s]) == PrintSuffix(s) + PrintSuffixes([]);
    } else {
      assert (ss + [s])[1..] == ss[1..] + [s];
      PrintSuffixesSnoc(ss[1..], s);
    }
  }

  lemma {:induction false} PrintIsPostSpine(e: Expr)
    ensures Print(e) == Print(PostBase(e)) + PrintSuffixes(Suffixes(e))
    decreases e
  {
    match e
    case Step(prefix, up, a) => if !prefix { PrintIsPostSpine(a); PrintSuffixesSnoc(Suffixes(a), Bump(up)); }
    case Call(f, args) => PrintIsPostSpine(f); PrintSuffixesSnoc(Suffixes(f), Suffix.Apply(args));
    case _ =>
  }

  lemma {:induction false} PostSpineFits(e: Expr, lookup: string -> Lookup)
    requires Fits(e) && Level(e) >= POSTFIX && Resolves(e, lookup)
    ensures var b := PostBase(e); Level(b) == PRIMARY && Resolves(b, lookup)
    ensures forall i {:trigger Suffixes(e)[i]} :: 0 <= i < |Suffixes(e)| && Suffixes(e)[i].Apply? ==>
              FitsAll(Suffixes(e)[i].args) && ResolvesAll(Suffixes(e)[i].args, lookup)
    decreases e
  {
    match e
    case Step(prefix, up, a) => PostSpineFits(a, lookup);
    case Call(f, args) => PostSpineFits(f, lookup);
    case _ =>
  }
}
