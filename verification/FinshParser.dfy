/** The shell's parser: recursive descent through ten levels with a one-token replay, linking
    nodes of the node table into child/sibling trees. Casts, parenthesised primaries and
    declarations are not part of this model. */
module FinshParser {
  import opened Basics
  import opened FinshWords
  import opened FinshSyntax
  import opened FinshNodes
  import opened FinshCompiler
  import opened FinshGrammar

  // ----- trees in a growing table -----

  /** Entries below `n0` are as they were. */
  ghost predicate Grown(tb0: Table, n0: nat, tb1: Table, n1: nat) {
    |tb1| == |tb0| && n0 <= n1 <= |tb1| && forall i {:trigger tb1[i]} :: 0 <= i < n0 ==> tb1[i] == tb0[i]
  }

  /** The tree at `p` uses entries from `lo` up to `hi` only, each once. */
  ghost predicate Fresh(tb: Table, p: Ptr, t: Tree, lo: nat, hi: nat) {
    Shape(tb, p, t) && Apart(t) && forall i {:trigger i in Ids(t)} :: i in Ids(t) ==> lo <= i < hi
  }

  lemma FreshKept(tb: Table, p: Ptr, t: Tree, lo: nat, hi: nat, tb': Table, hi': nat)
    requires Fresh(tb, p, t, lo, hi) && Grown(tb, hi, tb', hi')
    ensures Fresh(tb', p, t, lo, hi)
  {
    ShapeInTable(tb, p, t);
    ShapeKept(tb, tb', p, t);
  }

  lemma FreshNode(tb: Table, p: Ptr, t: Tree, lo: nat, hi: nat)
    requires Fresh(tb, p, t, lo, hi) && t.Node?
    ensures p == t.id && lo <= p < hi && p < |tb|
  {
    assert t.id in Ids(t);
  }

  /** make_sys_node's result: the new node above, the second operand beside the first. */
  function Made(id: nat, op: SysOp, t1: Tree, t2: Tree): Tree {
    if t1.Nil? then Nil else Node(id, Op(op), false, 0, t1.(sibling := t2), Nil)
  }

  /** What make_sys_node does to a table with `n` entries in use: no entry left and no first
      operand are errors. */
  ghost predicate Makes(tb: Table, n: nat, err: bool, node1: Ptr, node2: Ptr, op: SysOp,
                        tb': Table, n': nat, err': bool, r: Ptr) {
    if n == NODE_MAX then r == NULL && tb' == tb && n' == n && err'
    else if node1 == NULL || n >= |tb| || node1 >= |tb| then r == n && n' == n + 1 && err'
    else r == n && n' == n + 1 && err' == err
         && tb' == tb[n := EMPTY.(used := true, kind := Op(op), child := node1)][node1 := tb[node1].(sibling := node2)]
  }

  lemma MadeIsFresh(tb: Table, node1: Ptr, t1: Tree, node2: Ptr, t2: Tree, lo: nat, n: nat, op: SysOp, tb': Table)
    requires Fresh(tb, node1, t1, lo, n) && Fresh(tb, node2, t2, lo, n) && t1.Node? && t1.sibling.Nil?
    requires Ids(t1) !! Ids(t2) && lo <= n < |tb| && 0 <= node1 < |tb|
    requires tb' == tb[n := EMPTY.(used := true, kind := Op(op), child := node1)][node1 := tb[node1].(sibling := node2)]
    ensures Fresh(tb', n, Made(n, op, t1, t2), lo, n + 1)
    ensures Grown(tb, lo, tb', n + 1)
  {
    FreshNode(tb, node1, t1, lo, n);
    ShapeInTable(tb, tb[node1].child, t1.child);
    ShapeInTable(tb, node2, t2);
    ShapeKept(tb, tb', tb[node1].child, t1.child);
    ShapeKept(tb, tb', node2, t2);
  }

  /** What follows a tree as its sibling does not change what it encodes. */
  lemma AnySibling(t: Tree, e: Expr, u: Tree)
    requires Encodes(t, e)
    ensures Encodes(t.(sibling := u), e)
    decreases e
  {
    match e
    case Pos(a) => AnySibling(t, a, u);
    case _ =>
  }

  // ----- what every level of the parser promises -----

  /** A tree of the expression in the next entries of the table, as many as it has nodes; it
      hangs together with nothing else, and nothing below has changed. */
  ghost predicate Parsed(tb0: Table, n0: nat, tb1: Table, n1: nat, p: Ptr, t: Tree, e: Expr) {
    && |tb0| == NODE_MAX && Filled(tb1, n1) && Grown(tb0, n0, tb1, n1) && n1 == n0 + Nodes(e)
    && Fresh(tb1, p, t, n0, n1) && Encodes(t, e) && t.sibling.Nil?
  }

  lemma ParsedFacts(tb0: Table, n0: nat, tb1: Table, n1: nat, p: Ptr, t: Tree, e: Expr)
    requires Parsed(tb0, n0, tb1, n1, p, t, e)
    ensures t.Node? && t.sibling.Nil? && n0 <= p < n1 <= |tb1| == NODE_MAX && n1 == n0 + Nodes(e)
  {
    FreshNode(tb1, p, t, n0, n1);
  }

  lemma EncodesOne(id: nat, t: Tree, a: Expr, op: SysOp, e: Expr)
    requires Encodes(t, a)
    requires Heads(op, a, e)
    ensures Encodes(Made(id, op, t, Nil), e)
  {
    AnySibling(t, a, Nil);
  }

  lemma EncodesTwo(id: nat, t: Tree, a: Expr, u: Tree, b: Expr, op: SysOp, e: Expr)
    requires Encodes(t, a) && Encodes(u, b) && u.sibling.Nil?
    requires (e.Bin? && e.left == a && e.right == b && op == Arith(e.op)) || (e == Assign(a, b) && op == SetTo)
    ensures Encodes(Made(id, op, t, u), e)
  {
    AnySibling(t, a, u);
  }

  lemma EncodesCall(id: nat, t: Tree, f: Expr, u: Tree, args: Exprs)
    requires Encodes(t, f) && EncodesAll(u, args)
    ensures Encodes(Made(id, Func, t, u), Call(f, args))
  {
    AnySibling(t, f, u);
  }

  lemma EncodesNeg(id: nat, zero: Tree, u: Tree, a: Expr)
    requires Leaf(zero, ConstLong(0)) && Encodes(u, a) && u.sibling.Nil?
    ensures Encodes(Made(id, Arith(Sub), zero, u), Neg(a))
  {
  }

  /** An operator over one operand. */
  lemma OneMade(tb0: Table, n0: nat, tb: Table, n: nat, err: bool, p: Ptr, t: Tree, a: Expr,
                op: SysOp, e: Expr, tb': Table, n': nat, err': bool, r: Ptr)
    requires Parsed(tb0, n0, tb, n, p, t, a) && n < NODE_MAX
    requires Makes(tb, n, err, p, NULL, op, tb', n', err', r)
    requires Heads(op, a, e)
    ensures Parsed(tb0, n0, tb', n', r, Made(n, op, t, Nil), e) && err' == err
  {
    ParsedFacts(tb0, n0, tb, n, p, t, a);
    hide Fresh, Encodes, Filled, Nodes;
    assert Nodes(e) == 1 + Nodes(a) by { OneNodes(e, a); }
    MadeIsFresh(tb, p, t, NULL, Nil, n0, n, op, tb');
    EncodesOne(n, t, a, op, e);
    FilledOn(tb, n, tb', p);
  }

  lemma OneNodes(e: Expr, a: Expr)
    requires e == Not(a) || e == Deref(a) || e == AddrOf(a) || (e.Step? && e.arg == a)
    ensures Nodes(e) == 1 + Nodes(a)
  {
  }

  /** The table stays filled from the bottom when its next entry is taken. */
  lemma FilledOn(tb: Table, n: nat, tb': Table, p: Ptr)
    requires Filled(tb, n) && n < |tb| && 0 <= p < n && |tb'| == |tb|
    requires tb'[n].used && tb'[p].used && forall i :: 0 <= i < |tb| && i != n && i != p ==> tb'[i] == tb[i]
    ensures Filled(tb', n + 1)
  {
  }

  /** The trees of two operands parsed one after the other. */
  lemma FreshPair(tb1: Table, n0: nat, n1: nat, p: Ptr, t: Tree, tb2: Table, n2: nat, q: Ptr, u: Tree)
    requires Fresh(tb1, p, t, n0, n1) && Grown(tb1, n1, tb2, n2) && Fresh(tb2, q, u, n1, n2) && n0 <= n1
    ensures Fresh(tb2, p, t, n0, n2) && Fresh(tb2, q, u, n0, n2) && Ids(t) !! Ids(u)
  {
    FreshKept(tb1, p, t, n0, n1, tb2, n2);
  }

  lemma RecordUsed(tb: Table, n: nat, p: Ptr)
    requires Filled(tb, n) && 0 <= p < n
    ensures p < |tb| && tb[p].used
  {
  }

  /** An operator over two operands parsed one after the other. */
  lemma TwoMade(tb0: Table, n0: nat, tb1: Table, n1: nat, p: Ptr, t: Tree, a: Expr,
                tb2: Table, n2: nat, err: bool, q: Ptr, u: Tree, b: Expr,
                op: SysOp, e: Expr, tb': Table, n': nat, err': bool, r: Ptr)
    requires Parsed(tb0, n0, tb1, n1, p, t, a) && Parsed(tb1, n1, tb2, n2, q, u, b) && n2 < NODE_MAX
    requires Makes(tb2, n2, err, p, q, op, tb', n', err', r)
    requires (e.Bin? && e.left == a && e.right == b && op == Arith(e.op)) || (e == Assign(a, b) && op == SetTo)
    ensures Parsed(tb0, n0, tb', n', r, Made(n2, op, t, u), e) && err' == err
  {
    ParsedFacts(tb0, n0, tb1, n1, p, t, a);
    ParsedFacts(tb1, n1, tb2, n2, q, u, b);
    hide Fresh, Encodes, Filled;
    FreshPair(tb1, n0, n1, p, t, tb2, n2, q, u);
    RecordUsed(tb2, n2, p);
    MadeIsFresh(tb2, p, t, q, u, n0, n2, op, tb');
    EncodesTwo(n2, t, a, u, b, op, e);
    FilledOn(tb2, n2, tb', p);
  }

  /** A call: the argument list is a chain of siblings behind the callee. */
  lemma CallMade(tb0: Table, n0: nat, tb1: Table, n1: nat, p: Ptr, t: Tree, f: Expr,
                 tb2: Table, n2: nat, err: bool, q: Ptr, u: Tree, args: Exprs,
                 tb': Table, n': nat, err': bool, r: Ptr)
    requires Parsed(tb0, n0, tb1, n1, p, t, f) && ParsedAll(tb1, n1, tb2, n2, q, u, args) && n2 < NODE_MAX
    requires Makes(tb2, n2, err, p, q, Func, tb', n', err', r)
    ensures Parsed(tb0, n0, tb', n', r, Made(n2, Func, t, u), Call(f, args)) && err' == err
  {
    ParsedFacts(tb0, n0, tb1, n1, p, t, f);
    hide Fresh, Encodes, EncodesAll, Filled;
    FreshPair(tb1, n0, n1, p, t, tb2, n2, q, u);
    RecordUsed(tb2, n2, p);
    MadeIsFresh(tb2, p, t, q, u, n0, n2, Func, tb');
    EncodesCall(n2, t, f, u, args);
    FilledOn(tb2, n2, tb', p);
  }

  /** A node without operands. */
  lemma LeafMade(tb: Table, n: nat, kind: Kind, e: Expr, tb': Table, n': nat, r: Ptr)
    requires |tb| == NODE_MAX && Filled(tb, n) && n < NODE_MAX
    requires (e.Lit? && kind == LitKind(e.lit)) || (e.Var? && kind == Id(e.sym))
    requires r == n && n' == n + 1 && tb' == tb[n := EMPTY.(used := true, kind := kind)]
    ensures Parsed(tb, n, tb', n', r, Node(n, kind, false, 0, Nil, Nil), e)
  {
  }

  /** Unary minus: the constant 0 is made after its operand, and becomes its left neighbour. */
  lemma NegMade(tb0: Table, n0: nat, tb1: Table, n1: nat, q: Ptr, u: Tree, a: Expr,
                tb2: Table, n2: nat, err: bool, p: Ptr, z: Tree, tb': Table, n': nat, err': bool, r: Ptr)
    requires Parsed(tb0, n0, tb1, n1, q, u, a) && Parsed(tb1, n1, tb2, n2, p, z, Lit(LongLit(0))) && n2 < NODE_MAX
    requires Makes(tb2, n2, err, p, q, Arith(Sub), tb', n', err', r)
    ensures Parsed(tb0, n0, tb', n', r, Made(n2, Arith(Sub), z, u), Neg(a)) && err' == err
  {
    ParsedFacts(tb0, n0, tb1, n1, q, u, a);
    ParsedFacts(tb1, n1, tb2, n2, p, z, Lit(LongLit(0)));
    assert Leaf(z, ConstLong(0));
    hide Fresh, Encodes, Filled;
    FreshPair(tb1, n0, n1, q, u, tb2, n2, p, z);
    RecordUsed(tb2, n2, p);
    MadeIsFresh(tb2, p, z, q, u, n0, n2, Arith(Sub), tb');
    EncodesNeg(n2, z, u, a);
    FilledOn(tb2, n2, tb', p);
  }

  // ----- chains of siblings -----

  ghost predicate ParsedAll(tb0: Table, n0: nat, tb1: Table, n1: nat, p: Ptr, t: Tree, es: Exprs) {
    && |tb0| == NODE_MAX && Filled(tb1, n1) && Grown(tb0, n0, tb1, n1) && n1 == n0 + NodesAll(es)
    && Fresh(tb1, p, t, n0, n1) && EncodesAll(t, es)
  }

  /** The chain with one more tree at its end, and the node that ends it. */
  function Append(t: Tree, u: Tree): Tree {
    if t.Nil? then u else t.(sibling := Append(t.sibling, u))
  }

  function LastId(t: Tree): nat
    requires t.Node?
  {
    if t.sibling.Nil? then t.id else LastId(t.sibling)
  }

  function AppendArg(es: Exprs, e: Expr): Exprs {
    match es
    case NoArgs => Arg(e, NoArgs)
    case Arg(x, rest) => Arg(x, AppendArg(rest, e))
  }

  lemma {:induction false} EncodesAppend(t: Tree, es: Exprs, u: Tree, e: Expr)
    requires EncodesAll(t, es) && Encodes(u, e) && u.sibling.Nil?
    ensures EncodesAll(Append(t, u), AppendArg(es, e))
    decreases es
  {
    match es
    case NoArgs =>
      AnySibling(u, e, Nil);
      assert EncodesAll(u.sibling, NoArgs);
    case Arg(x, rest) =>
      EncodesAppend(t.sibling, rest, u, e);
      AnySibling(t, x, Append(t.sibling, u));
  }

  lemma {:induction false} NodesAppend(es: Exprs, e: Expr)
    ensures NodesAll(AppendArg(es, e)) == NodesAll(es) + Nodes(e)
    decreases es
  {
    if es.Arg? { NodesAppend(es.tail, e); }
  }

  lemma {:induction false} AppendIds(t: Tree, u: Tree)
    requires Apart(t) && Apart(u) && Ids(t) !! Ids(u)
    ensures Ids(Append(t, u)) == Ids(t) + Ids(u) && Apart(Append(t, u))
    ensures t.Node? ==> LastId(t) in Ids(t)
    decreases t
  {
    if t.Node? { AppendIds(t.sibling, u); }
  }

  /** Linking the last sibling to another tree appends it. */
  lemma {:induction false} AppendShape(tb: Table, p: Ptr, t: Tree, q: Ptr, u: Tree, tb': Table)
    requires Shape(tb, p, t) && Shape(tb, q, u) && Apart(t) && Apart(u) && Ids(t) !! Ids(u) && t.Node?
    requires LastId(t) < |tb| && tb' == tb[LastId(t) := tb[LastId(t)].(sibling := q)]
    ensures Shape(tb', p, Append(t, u))
    decreases t
  {
    AppendIds(t, u);
    ShapeInTable(tb, tb[t.id].child, t.child);
    ShapeInTable(tb, q, u);
    if t.sibling.Nil? {
      ShapeKept(tb, tb', tb[t.id].child, t.child);
      ShapeKept(tb, tb', q, u);
    } else {
      AppendIds(t.sibling, u);
      ShapeKept(tb, tb', tb[t.id].child, t.child);
      AppendShape(tb, tb[t.id].sibling, t.sibling, q, u, tb');
    }
  }

  // ----- the parser -----

  function First(s: seq<Token>): Token {
    if s == [] then Eof else s[0]
  }

  function Rest(s: seq<Token>): seq<Token> {
    if s == [] then [] else s[1..]
  }

  /** What is still to come when a token has been looked at. */
  function Ahead(token: Token, view: seq<Token>): seq<Token> {
    (if token == Eof then [] else [token]) + view
  }

  /** And how many tokens that is. */
  function Count(token: Token, n: nat): nat {
    if token == Eof then n else n + 1
  }

  class Parser {
    const nodes: array<NodeRec>
    const lookup: string -> Lookup
    /** What the lexer has still to deliver, the current token, and whether that one is to be
        delivered once more. */
    var rest: seq<Token>
    var current: Token
    var replay: bool
    /** finsh_error_set was called. */
    var error: bool
    /** How many entries of the node table are in use. */
    ghost var used: nat

    ghost predicate Ok()
      reads `rest, `current, `replay, `used, nodes
    {
      && nodes.Length == NODE_MAX && used <= NODE_MAX && Filled(nodes[..], used)
      && Eof !in rest && (current == Eof ==> rest == [])
    }

    /** The tokens still to come. */
    ghost function View(): seq<Token>
      reads `rest, `current, `replay
    {
      if replay && current != Eof then [current] + rest else rest
    }

    /** The next tokens are those of `e`, and what follows does not belong to it. */
    ghost predicate Ready(e: Expr, level: nat, more: seq<Token>)
      reads `rest, `current, `replay, `used, nodes
    {
      Ok() && View() == Print(e) + more && Stops(more, level) && Fits(e) && Level(e) >= level && Resolves(e, lookup)
    }

    /** Every level is called with an expression in front of it, or after an error. */
    ghost predicate Called(live: bool, e: Expr, level: nat, more: seq<Token>)
      reads this, nodes
    {
      Ok() && if live then Ready(e, level, more) else error
    }

    /** The parser has gone on from a table with `n0` entries in use and from `v0`. */
    ghost predicate Onward(n0: nat, v0: seq<Token>, err0: bool, p: Ptr)
      reads this, nodes
    {
      Ok() && n0 <= used && p < used && (err0 ==> error) && |View()| <= |v0|
    }

    /** What every level promises: an expression in front of it for which the table has room
        is parsed, exactly, and without an error; if there is no room, an error is reported. */
    ghost predicate Settled(tb0: Table, n0: nat, v0: seq<Token>, err0: bool, live: bool, e: Expr, more: seq<Token>,
                            p: Ptr, t: Tree)
      reads this, nodes
    {
      && Onward(n0, v0, err0, p) && (|View()| < |v0| || |View()| == 0)
      && if live && n0 + Nodes(e) <= NODE_MAX then
           View() == more && error == err0 && Parsed(tb0, n0, nodes[..], used, p, t, e)
         else error
    }

    /** The head of a loop that has looked at `token`. */
    ghost predicate Looking(n0: nat, v0: seq<Token>, err0: bool, p: Ptr, token: Token)
      reads this, nodes
    {
      && Ok() && !replay && token == current && n0 <= used && p < used && (err0 ==> error)
      && (Count(token, |View()|) < |v0| || Count(token, |View()|) == 0)
    }

    lemma Shorter(n0: nat, v0: seq<Token>, err0: bool, p: Ptr, token: Token)
      requires Looking(n0, v0, err0, p, token) && token != Eof
      ensures |View()| < |v0|
    {
    }

    lemma Room()
      requires Ok()
      ensures nodes.Length == NODE_MAX && used <= NODE_MAX && Filled(nodes[..], used)
    {
    }

    /** The end of the input is not a token of it. */
    lemma NoEof()
      requires Ok()
      ensures Eof !in View()
    {
    }

    lemma NoEofIn(e: Expr, more: seq<Token>)
      requires Ok() && View() == Print(e) + more
      ensures Eof !in more
    {
      assert Eof !in View();
      assert forall t {:trigger t in more} :: t in more ==> t in Print(e) + more;
    }

    /** finsh_token_token. */
    method NextToken() returns (token: Token)
      requires Ok()
      modifies `rest, `current, `replay
      ensures Ok() && !replay && token == current == First(old(View())) && View() == Rest(old(View()))
      ensures Ahead(token, View()) == old(View()) && Count(token, |View()|) == |old(View())|
    {
      NoEof();
      PutBack(View());
      if replay {
        replay := false;
      } else if rest == [] {
        current := Eof;
      } else {
        current := rest[0];
        rest := rest[1..];
      }
      token := current;
    }

    /** finsh_token_replay. */
    method Replay()
      requires Ok()
      modifies `replay
      ensures Ok() && replay && View() == (if old(replay) then old(View()) else Ahead(current, old(View())))
      ensures |View()| == if old(replay) then |old(View())| else Count(current, |old(View())|)
    {
      replay := true;
    }

    /** match_token: anything else is an error and is not consumed. */
    method MatchToken(token: Token)
      requires Ok()
      modifies `rest, `current, `replay, `error
      ensures Ok() && error == (old(error) || First(old(View())) != token)
      ensures View() == if First(old(View())) == token then Rest(old(View())) else old(View())
      ensures |View()| <= |old(View())|
    {
      var t := NextToken();
      if t != token {
        error := true;
        Replay();
      }
    }

    /** Make another node the sibling of a node of the table. */
    method Link(node: Ptr, next: Ptr)
      requires Ok() && 0 <= node < used
      modifies nodes
      ensures Ok() && used <= |old(nodes[..])|
              && nodes[..] == old(nodes[..])[node := old(nodes[node]).(sibling := next)]
      ensures node < nodes.Length && nodes[node].sibling == next
    {
      ghost var tb := nodes[..];
      nodes[node] := nodes[node].(sibling := next);
      RelinkedFilled(tb, used, node, nodes[..]);
    }

    /** Give a node another data type. */
    method Retype(node: Ptr, width: nat)
      requires Ok() && 0 <= node < used
      modifies nodes
      ensures Ok()
    {
      ghost var tb := nodes[..];
      nodes[node] := nodes[node].(width := width);
      RelinkedFilled(tb, used, node, nodes[..]);
    }

    /** make_sys_node. */
    method MakeSysNode(op: SysOp, node1: Ptr, node2: Ptr) returns (node: Ptr)
      requires Ok() && (node1 == NULL || node1 < used)
      modifies `error, `used, nodes
      ensures Makes(old(nodes[..]), old(used), old(error), node1, node2, op, nodes[..], used, error, node)
      ensures Ok() && View() == old(View()) && old(used) <= used && node < used && (old(error) ==> error)
      ensures old(used) == NODE_MAX ==> error
    {
      node := Allocate(nodes, Op(op));
      if node1 != NULL && node != NULL {
        nodes[node] := nodes[node].(child := node1);
        nodes[node1] := nodes[node1].(sibling := node2);
      } else {
        error := true;
      }
      if used < NODE_MAX { used := used + 1; }
    }

    /** finsh_node_new_int and its relatives. */
    method NewValue(kind: Kind) returns (node: Ptr)
      requires Ok()
      modifies `error, `used, nodes
      ensures if old(used) == NODE_MAX then node == NULL && nodes[..] == old(nodes[..]) && used == old(used) && error
              else node == old(used) && used == old(used) + 1 && error == old(error)
                   && nodes[..] == old(nodes[..])[old(used) := EMPTY.(used := true, kind := kind)]
      ensures Ok() && View() == old(View())
    {
      node := Allocate(nodes, kind);
      if node == NULL { error := true; }
      if used < NODE_MAX { used := used + 1; }
    }

    /** finsh_node_new_id: the symbol tables decide what the name stands for. */
    method NewId(name: string) returns (node: Ptr)
      requires Ok()
      modifies `error, `used, nodes
      ensures lookup(name).Missing? ==> node == NULL && error && nodes[..] == old(nodes[..]) && used == old(used)
      ensures lookup(name).Found? ==>
                if old(used) == NODE_MAX then node == NULL && nodes[..] == old(nodes[..]) && used == old(used) && error
                else node == old(used) && used == old(used) + 1 && error == old(error)
                     && nodes[..] == old(nodes[..])[old(used) := EMPTY.(used := true, kind := Id(lookup(name).sym))]
      ensures Ok() && View() == old(View())
    {
      match lookup(name)
      case Missing =>
        error := true;
        node := NULL;
      case Found(sym) =>
        node := NewValue(Id(sym));
    }

    /** proc_primary_expr: a literal, an identifier, or an expression in parentheses; no string. */
    method ProcPrimary(ghost live: bool, ghost e: Expr, ghost more: seq<Token>) returns (p: Ptr, ghost t: Tree)
      requires Called(live, e, PRIMARY, more)
      modifies this, nodes
      ensures Settled(old(nodes[..]), old(used), old(View()), old(error), live, e, more, p, t)
      decreases |View()|, 0
    {
      hide Parsed, Filled;
      ghost var tb0, n0 := nodes[..], used;
      var token := NextToken();
      ghost var kind := if e.Lit? then LitKind(e.lit) else if e.Var? then Id(e.sym) else ConstInt(0);
      t := Node(n0, kind, false, 0, Nil, Nil);
      if live { assert token == Print(e)[0] && View() == more && Nodes(e) == 1; }
      if token == LeftParen {
        p, t := ProcAssign(false, e, more);
        MatchToken(RightParen);
      } else {
        p := Plant(token);
        if live && n0 < NODE_MAX { LeafMade(tb0, n0, kind, e, nodes[..], used, p); }
      }
    }

    /** proc_assign_expr: right-associative. */
    method ProcAssign(ghost live: bool, ghost e: Expr, ghost more: seq<Token>) returns (p: Ptr, ghost t: Tree)
      requires Called(live, e, ASSIGN, more)
      modifies this, nodes
      ensures Settled(old(nodes[..]), old(used), old(View()), old(error), live, e, more, p, t) && replay
      decreases |View()|, 30
    {
      hide Ok, View, First, Rest, Ahead, Parsed, Makes, Filled, Nodes, Print, Resolves, Fits, Stops, Level;
      ghost var l, r, behind := LeftOf(e), RightOf(e), BehindLeft(e, more);
      if live {
        NoEofIn(e, more);
        AssignSplits(e, more, lookup);
      }
      ghost var tb0, n0, err0 := nodes[..], used, error;
      p, t := ProcBinary(OR, live, l, behind);
      ghost var tb1, n1, p1, t1, on := nodes[..], used, p, t, live && n0 + Nodes(l) <= NODE_MAX;
      if on { ParsedFacts(tb0, n0, tb1, n1, p, t, l); }
      var token := NextToken();
      if token == AssignTok {
        var q, u := ProcAssign(on, r, more);
        ghost var tb2, n2 := nodes[..], used;
        on := on && n1 + Nodes(r) <= NODE_MAX;
        if on { ParsedFacts(tb1, n1, tb2, n2, q, u, r); }
        p := MakeSysNode(SetTo, p, q);
        t := Made(n2, SetTo, t1, u);
        if on && n2 < NODE_MAX {
          TwoMade(tb0, n0, tb1, n1, p1, t1, l, tb2, n2, err0, q, u, r, SetTo, e, nodes[..], used, error, p);
        }
      } else {
        Replay();
      }
    }

    /** The six levels of left-associative operators, from proc_inclusive_or_expr down to
        proc_multiplicative_expr: one loop each, over the operators of that level. */
    method ProcBinary(level: nat, ghost live: bool, ghost e: Expr, ghost more: seq<Token>)
        returns (p: Ptr, ghost t: Tree)
      requires OR <= level <= MULTIPLICATIVE && Called(live, e, level, more)
      modifies this, nodes
      ensures Settled(old(nodes[..]), old(used), old(View()), old(error), live, e, more, p, t) && replay
      decreases |View()|, 20 - 2 * level
    {
      hide Ok, View, Looking, Settled, Parsed, Nodes, Resolves, Fits, Level, Stops, InSpine, Print;
      ghost var tb0, n0, v0, err0, on, i := nodes[..], used, View(), error, live, 0;
      var token;
      token, p, t, on := FirstOperand(level, live, e, more);
      while token.BinTok? && OpLevel(token.op) == level
        invariant Looking(n0, v0, err0, p, token) && (live && n0 + Nodes(e) <= NODE_MAX ==> on) && (on ==> live)
        invariant if on then InSpine(level, e, more, i, token, tb0, n0, err0, p, t) else error
        decreases Count(token, |View()|)
      {
        Shorter(n0, v0, err0, p, token);
        token, p, t, on := ProcOperand(level, token, on, p, t, e, i, more, tb0, n0, v0, err0);
        i := i + 1;
      }
      if on { SpineOver(level, e, more, i, token, tb0, n0, err0, p, t); }
      Finish(token, live, on, e, more, p, t, tb0, n0, v0, err0);
    }

    /** The end of such a loop: the token behind is put back. */
    method Finish(token: Token, ghost live: bool, ghost on: bool, ghost e: Expr, ghost more: seq<Token>,
                  ghost p: Ptr, ghost t: Tree, ghost tb0: Table, ghost n0: nat, ghost v0: seq<Token>, ghost err0: bool)
      requires Looking(n0, v0, err0, p, token) && (live && n0 + Nodes(e) <= NODE_MAX ==> on) && (on ==> live)
      requires if on then
                 && Ahead(token, View()) == more && error == err0
                 && Parsed(tb0, n0, nodes[..], used, p, t, e) && n0 + Nodes(e) <= NODE_MAX
               else error
      modifies `replay
      ensures Settled(tb0, n0, v0, err0, live, e, more, p, t) && replay
    {
      hide Ok, View, Parsed, Nodes, Ahead;
      Replay();
    }

    /** The first operand, and a look at the token behind. */
    method FirstOperand(level: nat, ghost live: bool, ghost e: Expr, ghost more: seq<Token>)
        returns (token: Token, p: Ptr, ghost t: Tree, ghost on: bool)
      requires OR <= level <= MULTIPLICATIVE && Called(live, e, level, more)
      modifies this, nodes
      ensures Looking(old(used), old(View()), old(error), p, token)
      ensures (on ==> live) && (live && old(used) + Nodes(e) <= NODE_MAX ==> on)
      ensures live ==> Fits(e) && Level(e) >= level && Stops(more, level) && Resolves(e, lookup) && Eof !in more
      ensures if on then InSpine(level, e, more, 0, token, old(nodes[..]), old(used), old(error), p, t) else error
      decreases |View()|, 19 - 2 * level, 1
    {
      hide Ok, View, First, Rest, Ahead, Ready, Parsed, Filled, Nodes, Print, Resolves, Fits, Level, Items, Base;
      hide PrintItems, Build, Stops, InSpine;
      ghost var tb0, n0, err0 := nodes[..], used, error;
      if live { SpineReady(level, e, more); }
      p, t := Tighter(level, live, Base(e, level), PrintItems(Items(e, level)) + more);
      on := live && n0 + Nodes(Base(e, level)) <= NODE_MAX;
      token := NextToken();
      if on { SpineBegins(level, e, more, token, tb0, n0, err0, p, t); }
    }

    lemma SpineReady(level: nat, e: Expr, more: seq<Token>)
      requires OR <= level <= MULTIPLICATIVE && Ready(e, level, more)
      ensures Ready(Base(e, level), level + 1, PrintItems(Items(e, level)) + more)
      ensures Eof !in more && Nodes(Base(e, level)) <= Nodes(e)
      ensures Fits(e) && Level(e) >= level && Stops(more, level) && Resolves(e, lookup)
    {
      hide Ok, View, Nodes, Print, Resolves, Fits, Level, Items, Base, PrintItems, Stops;
      NoEofIn(e, more);
      SpineSplits(e, level, more, lookup);
    }

    lemma SpineBegins(level: nat, e: Expr, more: seq<Token>, token: Token, tb0: Table, n0: nat, err0: bool, p: Ptr,
        t: Tree)
      requires Fits(e) && Level(e) >= level && Stops(more, level) && Resolves(e, lookup)
               && OR <= level <= MULTIPLICATIVE
      requires var s := PrintItems(Items(e, level)) + more; token == First(s) && View() == Rest(s)
      requires error == err0 && Parsed(tb0, n0, nodes[..], used, p, t, Base(e, level))
      ensures InSpine(level, e, more, 0, token, tb0, n0, err0, p, t)
    {
      hide Parsed, Nodes, Print, Resolves, Fits, Level, Items, Base, PrintItems, Stops, View, First, Rest;
      BuildNothing(Base(e, level), Items(e, level));
      SpineEnds(e, level, 0, more, lookup);
    }

    lemma SpineOver(level: nat, e: Expr, more: seq<Token>, i: nat, token: Token, tb0: Table, n0: nat, err0: bool,
                    p: Ptr, t: Tree)
      requires InSpine(level, e, more, i, token, tb0, n0, err0, p, t) && Eof !in more
      requires !(token.BinTok? && OpLevel(token.op) == level)
      ensures Ahead(token, View()) == more && error == err0
      ensures Parsed(tb0, n0, nodes[..], used, p, t, e) && n0 + Nodes(e) <= NODE_MAX
    {
      hide Parsed, Nodes, Print, Items, Base, PrintItems, Build, View, First, Rest, Ahead;
      SpineDone(e, level, i, more);
      ParsedFacts(tb0, n0, nodes[..], used, p, t, e);
    }

    /** The loop has built `i` operands of the spine, and sees the operator before the next. */
    ghost predicate InSpine(level: nat, e: Expr, more: seq<Token>, i: nat, token: Token, tb0: Table, n0: nat,
        err0: bool, p: Ptr, t: Tree)
      reads this, nodes
    {
      var b, items := Base(e, level), Items(e, level);
      && i <= |items| && error == err0
      && token == First(PrintItems(items[i..]) + more) && View() == Rest(PrintItems(items[i..]) + more)
      && ((token.BinTok? && OpLevel(token.op) == level) <==> i < |items|)
      && (i < |items| ==> token == BinTok(items[i].op))
      && Parsed(tb0, n0, nodes[..], used, p, t, Build(b, items[..i]))
    }

    /** One turn of such a loop: the next operand, the node over both, and a look at the token
        behind. */
    method ProcOperand(level: nat, token: Token, ghost live: bool, p: Ptr, ghost t: Tree, ghost e: Expr, ghost i: nat,
                       ghost more: seq<Token>, ghost tb0: Table, ghost n0: nat, ghost v0: seq<Token>, ghost err0: bool)
        returns (token': Token, r: Ptr, ghost u: Tree, ghost on: bool)
      requires Looking(n0, v0, err0, p, token)
      requires OR <= level <= MULTIPLICATIVE && token.BinTok? && OpLevel(token.op) == level
      requires if live then InSpine(level, e, more, i, token, tb0, n0, err0, p, t) else error
      requires live ==> Fits(e) && Level(e) >= level && Stops(more, level) && Resolves(e, lookup)
      modifies this, nodes
      ensures Looking(n0, v0, err0, r, token') && Count(token', |View()|) < Count(token, |old(View())|)
      ensures (on ==> live) && (live && n0 + Nodes(e) <= NODE_MAX ==> on)
      ensures if on then InSpine(level, e, more, i + 1, token', tb0, n0, err0, r, u) else error
      decreases |View()|, 19 - 2 * level, 1
    {
      hide Ok, View, First, Rest, Ahead, Parsed, Makes, Filled, Nodes, Print, Resolves, Fits, Level, Items, Base;
      hide PrintItems, Build, Stops;
      ghost var tb1, n1, d, arg, behind := nodes[..], used, e, e, more;
      if live {
        d, arg := Build(Base(e, level), Items(e, level)[..i]), Items(e, level)[i].arg;
        behind := PrintItems(Items(e, level)[i + 1..]) + more;
        ParsedFacts(tb0, n0, tb1, n1, p, t, d);
        ItemSplits(e, level, i, more, lookup);
        SpineEnds(e, level, i + 1, more, lookup);
      }
      var q, v := Tighter(level, live, arg, behind);
      ghost var tb2, n2 := nodes[..], used;
      on := live && n1 + Nodes(arg) <= NODE_MAX;
      if on { ParsedFacts(tb1, n1, tb2, n2, q, v, arg); }
      r, u := p, t;
      if q == NULL {
        error := true;
      } else {
        r := MakeSysNode(Arith(token.op), p, q);
        u := Made(n2, Arith(token.op), t, v);
        on := on && n2 < NODE_MAX;
        if on {
          TwoMade(tb0, n0, tb1, n1, p, t, d, tb2, n2, err0, q, v, arg,
            Arith(token.op), Bin(token.op, d, arg), nodes[..], used, error, r);
        }
      }
      token' := NextToken();
    }

    /** The operands of a level are parsed by the next tighter one. */
    method Tighter(level: nat, ghost live: bool, ghost e: Expr, ghost more: seq<Token>) returns (p: Ptr, ghost t: Tree)
      requires OR <= level <= MULTIPLICATIVE && Called(live, e, level + 1, more)
      modifies this, nodes
      ensures Settled(old(nodes[..]), old(used), old(View()), old(error), live, e, more, p, t) && replay
      decreases |View()|, 19 - 2 * level, 0
    {
      hide Ok, View, First, Rest, Ahead, Parsed, Filled, Nodes;
      if level < MULTIPLICATIVE {
        p, t := ProcBinary(level + 1, live, e, more);
      } else {
        p, t := ProcCast(live, e, more);
      }
    }

    /** proc_type, where no token is a type. */
    method ProcType()
      requires Ok()
      modifies `rest, `current, `replay, `error
      ensures Ok() && error && View() == old(View())
    {
      var token := NextToken();
      Replay();
      error := true;
    }

    /** proc_cast_expr. A parenthesis opens a cast, and as there are no types here, a wrong one. */
    method ProcCast(ghost live: bool, ghost e: Expr, ghost more: seq<Token>) returns (p: Ptr, ghost t: Tree)
      requires Called(live, e, CAST, more)
      modifies this, nodes
      ensures Settled(old(nodes[..]), old(used), old(View()), old(error), live, e, more, p, t) && replay
      decreases |View()|, 3
    {
      hide Ok, View, First, Rest, Ahead, Parsed, Filled, Nodes, Resolves, Fits, Level, Print;
      if live {
        NoEofIn(e, more);
        Starts(e, more);
        FirstTokenOf(e);
      }
      var token := NextToken();
      if token == LeftParen {
        ProcType();
        MatchToken(RightParen);
        p, t := ProcCast(false, e, more);
        if p != NULL {
          Retype(p, 0);
          return;
        }
      }
      Replay();
      p, t := ProcUnary(live, e, more);
    }

    /** proc_unary_expr. */
    method ProcUnary(ghost live: bool, ghost e: Expr, ghost more: seq<Token>) returns (p: Ptr, ghost t: Tree)
      requires Called(live, e, CAST, more)
      modifies this, nodes
      ensures Settled(old(nodes[..]), old(used), old(View()), old(error), live, e, more, p, t) && replay
      decreases |View()|, 2
    {
      hide Ok, View, First, Rest, Ahead, Parsed, Filled, Nodes, Resolves, Fits, Level, Print, Makes;
      ghost var a := Operand(e);
      if live {
        NoEofIn(e, more);
        Starts(e, more);
        UnarySplits(e, more, lookup);
      }
      var token := NextToken();
      if token == BinTok(Add) {
        ghost var tb0, n0 := nodes[..], used;
        p, t := ProcCast(live, a, more);
        if live && n0 + Nodes(a) <= NODE_MAX { PosIsOperand(tb0, n0, nodes[..], used, p, t, a); }
      } else if token == BinTok(Sub) {
        p, t := NegNode(live, e, a, more);
      } else if PrefixOp(token).Some? {
        if live { PrefixOpFits(e); }
        p, t := UnaryNode(PrefixOp(token).value, live, e, a, more);
      } else {
        Replay();
        p, t := ProcPostfix(live, e, more);
      }
    }

    /** An operand and the node above it. */
    method UnaryNode(op: SysOp, ghost live: bool, ghost e: Expr, ghost a: Expr, ghost more: seq<Token>)
        returns (p: Ptr, ghost t: Tree)
      requires Called(live, a, CAST, more)
      requires live ==> Nodes(e) == 1 + Nodes(a) && Heads(op, a, e)
      modifies this, nodes
      ensures Settled(old(nodes[..]), old(used), old(View()), old(error), live, e, more, p, t) && replay
      decreases |View()|, 4
    {
      hide Ok, View, First, Rest, Ahead, Parsed, Filled, Nodes, Resolves, Fits, Level, Print, Makes;
      ghost var tb0, n0, err0 := nodes[..], used, error;
      var q, u := ProcCast(live, a, more);
      ghost var tb1, n1, on := nodes[..], used, live && n0 + Nodes(a) <= NODE_MAX;
      if on { ParsedFacts(tb0, n0, tb1, n1, q, u, a); }
      p := MakeSysNode(op, q, NULL);
      t := Made(n1, op, u, Nil);
      if on && n1 < NODE_MAX {
        OneMade(tb0, n0, tb1, n1, err0, q, u, a, op, e, nodes[..], used, error, p);
      }
    }

    /** Unary minus: the operand, the constant 0, and the node that subtracts. */
    method NegNode(ghost live: bool, ghost e: Expr, ghost a: Expr, ghost more: seq<Token>)
      returns (p: Ptr, ghost t: Tree)
      requires Called(live, a, CAST, more)
      requires live ==> e == Neg(a) && Nodes(e) == 2 + Nodes(a)
      modifies this, nodes
      ensures Settled(old(nodes[..]), old(used), old(View()), old(error), live, e, more, p, t) && replay
      decreases |View()|, 4
    {
      hide Ok, View, First, Rest, Ahead, Parsed, Filled, Nodes, Resolves, Fits, Level, Print, Makes;
      ghost var tb0, n0, err0 := nodes[..], used, error;
      var q, u := ProcCast(live, a, more);
      ghost var tb1, n1, on := nodes[..], used, live && n0 + Nodes(a) <= NODE_MAX;
      if on { ParsedFacts(tb0, n0, tb1, n1, q, u, a); }
      Room();
      var zero := NewValue(ConstLong(0));
      ghost var tb2, n2, z := nodes[..], used, Node(n1, ConstLong(0), false, 0, Nil, Nil);
      if on && n1 < NODE_MAX {
        LeafMade(tb1, n1, ConstLong(0), Lit(LongLit(0)), tb2, n2, zero);
        ParsedFacts(tb1, n1, tb2, n2, zero, z, Lit(LongLit(0)));
      }
      p := MakeSysNode(Arith(Sub), zero, q);
      t := Made(n2, Arith(Sub), z, u);
      if on && n1 < NODE_MAX && n2 < NODE_MAX {
        NegMade(tb0, n0, tb1, n1, q, u, a, tb2, n2, err0, zero, z, nodes[..], used, error, p);
      }
    }

    /** proc_postfix_expr. */
    method ProcPostfix(ghost live: bool, ghost e: Expr, ghost more: seq<Token>) returns (p: Ptr, ghost t: Tree)
      requires Called(live, e, POSTFIX, more)
      modifies this, nodes
      ensures Settled(old(nodes[..]), old(used), old(View()), old(error), live, e, more, p, t) && replay
      decreases |View()|, 1
    {
      hide Ok, View, Looking, Settled, Parsed, Nodes, Resolves, Fits, Level, Stops, InSuffixes, Print;
      ghost var tb0, n0, v0, err0, on, i := nodes[..], used, View(), error, live, 0;
      var token;
      token, p, t, on := FirstPrimary(live, e, more);
      while token == IncTok || token == DecTok || token == LeftParen
        invariant Looking(n0, v0, err0, p, token) && (live && n0 + Nodes(e) <= NODE_MAX ==> on) && (on ==> live)
        invariant if on then InSuffixes(e, more, i, token, tb0, n0, err0, p, t) else error
        decreases Count(token, |View()|)
      {
        Shorter(n0, v0, err0, p, token);
        token, p, t, on := ProcSuffix(token, on, p, t, e, i, more, tb0, n0, v0, err0);
        i := i + 1;
      }
      if on { SuffixesOver(e, more, i, token, tb0, n0, err0, p, t); }
      Finish(token, live, on, e, more, p, t, tb0, n0, v0, err0);
    }

    /** The primary, and a look at the token behind. */
    method FirstPrimary(ghost live: bool, ghost e: Expr, ghost more: seq<Token>)
        returns (token: Token, p: Ptr, ghost t: Tree, ghost on: bool)
      requires Called(live, e, POSTFIX, more)
      modifies this, nodes
      ensures Looking(old(used), old(View()), old(error), p, token)
      ensures (on ==> live) && (live && old(used) + Nodes(e) <= NODE_MAX ==> on)
      ensures live ==> Fits(e) && Level(e) >= POSTFIX && Stops(more, POSTFIX) && Resolves(e, lookup) && Eof !in more
      ensures if on then InSuffixes(e, more, 0, token, old(nodes[..]), old(used), old(error), p, t) else error
      decreases |View()|, 1, 0
    {
      hide Ok, View, First, Rest, Ahead, Ready, Parsed, Filled, Nodes, Resolves, Fits, Level, Print, Suffixes;
      hide PostBase, PrintSuffixes, BuildPost, Stops, InSuffixes;
      ghost var tb0, n0, err0 := nodes[..], used, error;
      if live { SuffixesReady(e, more); }
      p, t := ProcPrimary(live, PostBase(e), PrintSuffixes(Suffixes(e)) + more);
      on := live && n0 + Nodes(PostBase(e)) <= NODE_MAX;
      token := NextToken();
      if on { SuffixesBegin(e, more, token, tb0, n0, err0, p, t); }
    }

    lemma SuffixesReady(e: Expr, more: seq<Token>)
      requires Ready(e, POSTFIX, more)
      ensures Ready(PostBase(e), PRIMARY, PrintSuffixes(Suffixes(e)) + more)
      ensures Eof !in more && Nodes(PostBase(e)) <= Nodes(e)
      ensures Fits(e) && Level(e) >= POSTFIX && Stops(more, POSTFIX) && Resolves(e, lookup)
    {
      hide Ok, View, Nodes, Resolves, Fits, Level, Print, Suffixes, PostBase, PrintSuffixes, Stops;
      NoEofIn(e, more);
      PostSplits(e, more, lookup);
    }

    lemma SuffixesBegin(e: Expr, more: seq<Token>, token: Token, tb0: Table, n0: nat, err0: bool, p: Ptr, t: Tree)
      requires Stops(more, POSTFIX)
      requires var s := PrintSuffixes(Suffixes(e)) + more; token == First(s) && View() == Rest(s)
      requires error == err0 && Parsed(tb0, n0, nodes[..], used, p, t, PostBase(e))
      ensures InSuffixes(e, more, 0, token, tb0, n0, err0, p, t)
    {
      hide Parsed, Nodes, Suffixes, PostBase, PrintSuffixes, Stops, View, First, Rest;
      var ss := Suffixes(e);
      assert ss[0..] == ss && ss[..0] == [];
      SuffixEnds(e, 0, more);
    }

    lemma SuffixesOver(e: Expr, more: seq<Token>, i: nat, token: Token, tb0: Table, n0: nat, err0: bool, p: Ptr,
        t: Tree)
      requires InSuffixes(e, more, i, token, tb0, n0, err0, p, t) && Eof !in more
      requires !(token == IncTok || token == DecTok || token == LeftParen)
      ensures Ahead(token, View()) == more && error == err0
      ensures Parsed(tb0, n0, nodes[..], used, p, t, e) && n0 + Nodes(e) <= NODE_MAX
    {
      hide Parsed, Nodes, Suffixes, PostBase, PrintSuffixes, BuildPost, View, First, Rest, Ahead;
      PostDone(e, i, more);
      ParsedFacts(tb0, n0, nodes[..], used, p, t, e);
    }

    /** The loop has applied `i` suffixes, and sees the first token of the next. */
    ghost predicate InSuffixes(e: Expr, more: seq<Token>, i: nat, token: Token, tb0: Table, n0: nat, err0: bool,
                               p: Ptr, t: Tree)
      reads this, nodes
    {
      var b, ss := PostBase(e), Suffixes(e);
      && i <= |ss| && error == err0
      && token == First(PrintSuffixes(ss[i..]) + more) && View() == Rest(PrintSuffixes(ss[i..]) + more)
      && ((token == IncTok || token == DecTok || token == LeftParen) <==> i < |ss|)
      && Parsed(tb0, n0, nodes[..], used, p, t, BuildPost(b, ss[..i]))
    }

    /** One postfix operator, a bump or a call with its argument list, and a look at the token
        behind. */
    method ProcSuffix(token: Token, ghost live: bool, p: Ptr, ghost t: Tree, ghost e: Expr, ghost i: nat,
                      ghost more: seq<Token>, ghost tb0: Table, ghost n0: nat, ghost v0: seq<Token>, ghost err0: bool)
        returns (token': Token, r: Ptr, ghost u: Tree, ghost on: bool)
      requires Looking(n0, v0, err0, p, token) && (token == IncTok || token == DecTok || token == LeftParen)
      requires if live then InSuffixes(e, more, i, token, tb0, n0, err0, p, t) else error
      requires live ==> Fits(e) && Level(e) >= POSTFIX && Stops(more, POSTFIX) && Resolves(e, lookup)
      modifies this, nodes
      ensures Looking(n0, v0, err0, r, token') && Count(token', |View()|) < Count(token, |old(View())|)
      ensures (on ==> live) && (live && n0 + Nodes(e) <= NODE_MAX ==> on)
      ensures if on then InSuffixes(e, more, i + 1, token', tb0, n0, err0, r, u) else error
      decreases |View()|, 34
    {
      hide Ok, View, First, Rest, Ahead, Parsed, Makes, Filled, Nodes, Resolves, Fits, Level, Print, Suffixes;
      hide PostBase, PrintSuffixes, BuildPost, Stops, PrintArgs, NodesAll;
      ghost var n1, d, behind := used, e, more;
      if live {
        d, behind := BuildPost(PostBase(e), Suffixes(e)[..i]), PrintSuffixes(Suffixes(e)[i + 1..]) + more;
        ParsedFacts(tb0, n0, nodes[..], used, p, t, d);
        SuffixSplits(e, i, more, lookup);
        SuffixEnds(e, i + 1, more);
      }
      if token == LeftParen {
        ghost var args := if live && Suffixes(e)[i].Apply? then Suffixes(e)[i].args else NoArgs;
        r, u, on := CallNode(live, p, t, d, args, behind, tb0, n0, err0);
      } else {
        r, u, on := BumpNode(token, live, p, t, d, tb0, n0, err0);
      }
      token' := NextToken();
    }

    /** A postfix bump: the node over what is there. */
    method BumpNode(token: Token, ghost live: bool, p: Ptr, ghost t: Tree, ghost d: Expr, ghost tb0: Table,
                    ghost n0: nat, ghost err0: bool) returns (r: Ptr, ghost u: Tree, ghost on: bool)
      requires Ok() && p < used
      requires if live then error == err0 && Parsed(tb0, n0, nodes[..], used, p, t, d) else error
      modifies `error, `used, nodes
      ensures Ok() && old(used) <= used && r < used && (old(error) ==> error) && View() == old(View())
      ensures on <==> live && old(used) < NODE_MAX
      ensures if on then error == err0
              && Parsed(tb0, n0, nodes[..], used, r, u, Step(false, token == IncTok, d)) else error
    {
      hide Ok, View, Parsed, Makes, Nodes;
      ghost var tb1, n1 := nodes[..], used;
      if live { ParsedFacts(tb0, n0, tb1, n1, p, t, d); }
      var op := if token == IncTok then PostInc else PostDec;
      r := MakeSysNode(op, p, NULL);
      u := Made(n1, op, t, Nil);
      on := live && n1 < NODE_MAX;
      if on {
        OneMade(tb0, n0, tb1, n1, err0, p, t, d, op, Step(false, token == IncTok, d), nodes[..], used, error, r);
      }
    }

    /** A call: the arguments, and the node over callee and arguments. */
    method CallNode(ghost live: bool, p: Ptr, ghost t: Tree, ghost d: Expr, ghost args: Exprs, ghost more: seq<Token>,
                    ghost tb0: Table, ghost n0: nat, ghost err0: bool) returns (r: Ptr, ghost u: Tree, ghost on: bool)
      requires Ok() && p < used
      requires if live then error == err0 && Parsed(tb0, n0, nodes[..], used, p, t, d) else error
      requires live ==>
                 View() == PrintArgs(args) + ([RightParen] + more) && FitsAll(args) && ResolvesAll(args, lookup)
      modifies this, nodes
      ensures Onward(old(used), old(View()), old(error), r)
      ensures on <==> live && old(used) + NodesAll(args) < NODE_MAX
      ensures if on then View() == more && error == err0
              && Parsed(tb0, n0, nodes[..], used, r, u, Call(d, args)) else error
      decreases |View()|, 33
    {
      hide Ok, View, Parsed, ParsedAll, Makes, Nodes, NodesAll, PrintArgs, FitsAll, ResolvesAll;
      ghost var tb1, n1 := nodes[..], used;
      if live { ParsedFacts(tb0, n0, tb1, n1, p, t, d); }
      var q, v := ProcArguments(live, args, more);
      ghost var tb2, n2 := nodes[..], used;
      on := live && n1 + NodesAll(args) <= NODE_MAX;
      if on { ParsedAllFacts(tb1, n1, tb2, n2, q, v, args); }
      r := MakeSysNode(Func, p, q);
      u := Made(n2, Func, t, v);
      on := on && n2 < NODE_MAX;
      if on { CallMade(tb0, n0, tb1, n1, p, t, d, tb2, n2, err0, q, v, args, nodes[..], used, error, r); }
    }

    /** Behind the left parenthesis of a call: nothing, or a parameter list, up to the right
        parenthesis. */
    method ProcArguments(ghost live: bool, ghost args: Exprs, ghost more: seq<Token>) returns (q: Ptr, ghost v: Tree)
      requires Ok() && (!live ==> error)
      requires live ==>
                 View() == PrintArgs(args) + ([RightParen] + more) && FitsAll(args) && ResolvesAll(args, lookup)
      modifies this, nodes
      ensures Onward(old(used), old(View()), old(error), q)
      ensures if live && old(used) + NodesAll(args) <= NODE_MAX then
                View() == more && error == old(error)
                  && ParsedAll(old(nodes[..]), old(used), nodes[..], used, q, v, args)
              else error
      decreases |View()|, 32
    {
      hide Ok, View, First, Rest, Ahead, ParsedAll, Filled, NodesAll;
      ghost var behind := [RightParen] + more;
      Begins(RightParen, more);
      if live {
        ArgsStart(args, behind);
        if args.NoArgs? { assert PrintArgs(args) + behind == behind; }
      }
      q, v := NULL, Nil;
      Room();
      NoArgsParsed(nodes[..], used);
      NoNodes();
      var token := NextToken();
      if token != RightParen {
        Replay();
        q, v := ProcParamList(live, args, behind);
        MatchToken(RightParen);
      }
    }

    /** proc_param_list. */
    method ProcParamList(ghost live: bool, ghost es: Exprs, ghost more: seq<Token>) returns (node: Ptr, ghost t: Tree)
      requires Ok() && (!live ==> error)
      requires live ==>
                 && es.Arg? && View() == PrintArgs(es) + more && FitsAll(es) && ResolvesAll(es, lookup)
                 && First(more) == RightParen
      modifies this, nodes
      ensures Onward(old(used), old(View()), old(error), node)
      ensures if live && old(used) + NodesAll(es) <= NODE_MAX then
                View() == more && error == old(error)
                  && ParsedAll(old(nodes[..]), old(used), nodes[..], used, node, t, es)
              else error
      decreases |View()|, 31
    {
      hide Ok, View, First, Rest, Ahead, ParsedAll, Parsed, Filled, Nodes, NodesAll, Print, Fits, Resolves;
      hide PrintMore, PrintArgs, Stops;
      ghost var tb0, n0, v0, err0, on := nodes[..], used, View(), error, live;
      ghost var head, done, left, behind := Lit(NullLit), NoArgs, NoArgs, more;
      if live {
        FirstArgSplits(es, more);
        head, done, left, behind := es.head, Arg(es.head, NoArgs), es.tail, PrintMore(es.tail) + more;
      }
      var assign;
      assign, t := ProcAssign(live, head, behind);
      on := live && n0 + Nodes(head) <= NODE_MAX;
      if on { OneParsed(tb0, n0, nodes[..], used, assign, t, head); }
      if assign == NULL { return NULL, t; }
      node := assign;
      var token := NextToken();
      if on { ParamsBegin(es, more, token, tb0, n0, err0, node, t); }
      hide InParams;
      while token == Comma
        invariant Looking(n0, v0, err0, node, token) && node != NULL && 0 <= assign < used
        invariant (live && n0 + NodesAll(es) <= NODE_MAX ==> on) && (on ==> live)
        invariant if on then InParams(es, more, done, left, token, tb0, n0, err0, node, t, assign) else error
        decreases Count(token, |View()|)
      {
        token, assign, t, done, left, on :=
          ProcParam(token, assign, node, on, es, t, done, left, more, tb0, n0, err0);
      }
      if on { ParamsOver(es, more, done, left, token, tb0, n0, err0, node, t, assign); }
      Replay();
    }

    lemma ParamsBegin(es: Exprs, more: seq<Token>, token: Token, tb0: Table, n0: nat, err0: bool, node: Ptr, t: Tree)
      requires es.Arg? && FitsAll(es) && ResolvesAll(es, lookup) && First(more) == RightParen && error == err0
      requires var s := PrintMore(es.tail) + more; token == First(s) && View() == Rest(s)
      requires ParsedAll(tb0, n0, nodes[..], used, node, t, Arg(es.head, NoArgs)) && t.Node? && node == LastId(t)
      ensures InParams(es, more, Arg(es.head, NoArgs), es.tail, token, tb0, n0, err0, node, t, node)
    {
      hide ParsedAll, Nodes, Fits, Resolves, View, First, Rest, PrintMore, PrintArgs;
      FirstArgSplits(es, more);
      MoreStart(es.tail, more);
    }

    lemma ParamReady(es: Exprs, more: seq<Token>, done: Exprs, left: Exprs, token: Token, tb0: Table, n0: nat,
        err0: bool, node: Ptr, t: Tree, last: Ptr)
      requires Ok() && InParams(es, more, done, left, token, tb0, n0, err0, node, t, last)
      requires token == Comma && First(more) == RightParen
      ensures left.Arg? && Ready(left.head, ASSIGN, PrintMore(left.tail) + more)
      ensures FitsAll(left.tail) && ResolvesAll(left.tail, lookup)
      ensures First(PrintMore(left.tail) + more) == Comma <==> left.tail.Arg?
      ensures used == n0 + NodesAll(done) && NodesAll(AppendArg(done, left.head)) == NodesAll(done) + Nodes(left.head)
      ensures NodesAll(AppendArg(done, left.head)) + NodesAll(left.tail) == NodesAll(es)
      ensures Join(AppendArg(done, left.head), left.tail) == es
    {
      hide Ok, View, First, Rest, ParsedAll, Nodes, Print, Fits, Resolves, PrintMore;
      MoreSplits(left, more);
      NodesAppend(done, left.head);
      JoinMoves(done, left);
      ParsedAllFacts(tb0, n0, nodes[..], used, node, t, done);
      MoreStart(left.tail, more);
    }

    lemma ParamsOver(es: Exprs, more: seq<Token>, done: Exprs, left: Exprs, token: Token, tb0: Table, n0: nat,
        err0: bool, node: Ptr, t: Tree, last: Ptr)
      requires InParams(es, more, done, left, token, tb0, n0, err0, node, t, last) && First(more) == RightParen
      requires token != Comma
      ensures Ahead(token, View()) == more && error == err0
      ensures ParsedAll(tb0, n0, nodes[..], used, node, t, es) && n0 + NodesAll(es) <= NODE_MAX
    {
      hide ParsedAll, NodesAll, View, First, Rest, Ahead, PrintMore;
      JoinNothing(done);
      MoreStart(left, more);
      ParsedAllFacts(tb0, n0, nodes[..], used, node, t, es);
    }

    /** The loop has chained the parameters `done`, the last of them at `last`. */
    ghost predicate InParams(es: Exprs, more: seq<Token>, done: Exprs, left: Exprs, token: Token, tb0: Table, n0: nat,
                             err0: bool, node: Ptr, t: Tree, last: Ptr)
      reads this, nodes
    {
      && error == err0 && token == First(PrintMore(left) + more) && View() == Rest(PrintMore(left) + more)
      && (token == Comma <==> left.Arg?) && Join(done, left) == es && FitsAll(left) && ResolvesAll(left, lookup)
      && NodesAll(done) + NodesAll(left) == NodesAll(es)
      && ParsedAll(tb0, n0, nodes[..], used, node, t, done) && t.Node? && last == LastId(t)
    }

    /** One more parameter: parsed, and linked behind the last one; then a look at the token
        behind. */
    method ProcParam(token: Token, assign: Ptr, ghost node: Ptr, ghost live: bool, ghost es: Exprs, ghost t: Tree,
                     ghost done: Exprs, ghost left: Exprs, ghost more: seq<Token>,
                     ghost tb0: Table, ghost n0: nat, ghost err0: bool)
        returns (token': Token, last: Ptr, ghost t': Tree, ghost done': Exprs, ghost left': Exprs, ghost on: bool)
      requires Ok() && 0 <= assign < used && node < used && token == Comma
      requires live ==> First(more) == RightParen
      requires if live then InParams(es, more, done, left, token, tb0, n0, err0, node, t, assign) else error
      modifies this, nodes
      ensures Looking(old(used), old(View()) + [token], old(error), node, token') && 0 <= last < used
      ensures (on ==> live) && (live && n0 + NodesAll(es) <= NODE_MAX ==> on)
      ensures if on then InParams(es, more, done', left', token', tb0, n0, err0, node, t', last) else error
      decreases |View()|, 31
    {
      hide Ok, View, First, Rest, Ahead, ParsedAll, Parsed, Filled, Nodes, NodesAll, Print, Fits, Resolves, PrintMore;
      hide Ready, Join, AppendArg, Append, LastId, FitsAll, ResolvesAll;
      ghost var tb1, n1, head, behind, u := nodes[..], used, Lit(NullLit), more, Nil;
      t', done', left' := t, done, left;
      if live {
        ParamReady(es, more, done, left, token, tb0, n0, err0, node, t, assign);
        head, behind := left.head, PrintMore(left.tail) + more;
      }
      var q;
      q, u := ProcAssign(live, head, behind);
      ghost var tb2 := nodes[..];
      on := live && n1 + Nodes(head) <= NODE_MAX;
      if on { ParsedFacts(tb1, n1, tb2, used, q, u, head); }
      Link(assign, q);
      if on {
        AppendMade(tb0, n0, tb1, n1, node, t, done, tb2, used, q, u, head, nodes[..]);
        t', done', left' := Append(t, u), AppendArg(done, left.head), left.tail;
      }
      last := assign;
      if q != NULL {
        last := q;
      } else {
        error := true;
      }
      token' := NextToken();
    }

    /** proc_expr_statement. */
    method ProcStatement(ghost live: bool, ghost e: Expr, ghost more: seq<Token>) returns (p: Ptr, ghost t: Tree)
      requires Ok() && (!live ==> error)
      requires live ==> View() == Print(e) + ([Semicolon] + more) && Fits(e) && Resolves(e, lookup)
      modifies this, nodes
      ensures Settled(old(nodes[..]), old(used), old(View()), old(error), live, e, more, p, t)
    {
      hide Ok, View, First, Rest, Ahead, Parsed, Filled, Nodes, Resolves, Fits;
      if live {
        NoEofIn(e, [Semicolon] + more);
        Starts(e, [Semicolon] + more);
        FirstTokenOf(e);
      }
      Begins(Semicolon, more);
      p, t := NULL, Nil;
      var token := NextToken();
      if token != Semicolon {
        Replay();
        p, t := ProcAssign(live, e, [Semicolon] + more);
        MatchToken(Semicolon);
      }
    }

    /** finsh_parser_run: statement after statement, each linked behind the one before. A line
        for which the table has room is parsed without an error, and one for which it has not
        is reported. */
    method Run(tokens: seq<Token>, ghost es: Exprs) returns (root: Ptr, ghost t: Tree)
      requires nodes.Length == NODE_MAX && Filled(nodes[..], used) && tokens == PrintLine(es)
      requires FitsAll(es) && ResolvesAll(es, lookup)
      modifies this, nodes
      ensures Ok() && (error <==> old(error) || old(used) + NodesAll(es) > NODE_MAX)
      ensures old(used) + NodesAll(es) <= NODE_MAX ==>
                View() == [] && ParsedAll(old(nodes[..]), old(used), nodes[..], used, root, t, es)
    {
      hide Ok, View, First, Rest, Ahead, ParsedAll, Parsed, Filled, Nodes, NodesAll, Print, Fits, Resolves, PrintLine;
      ghost var tb0, n0, err0, done, left, on := nodes[..], used, error, NoArgs, es, true;
      LineHasNoEof(es);
      Load(tokens);
      ghost var v0 := View() + [Semicolon];
      root, t := NULL, Nil;
      NothingChained(es, tb0, n0);
      hide Chained;
      var node: Ptr := NULL;
      var token := NextToken();
      LineStart(left);
      while token != Eof
        invariant Looking(n0, v0, err0, root, token) && (root == NULL <==> node == NULL) && node < used
        invariant n0 + NodesAll(es) <= NODE_MAX ==> on
        invariant on ==> token == First(PrintLine(left)) && View() == Rest(PrintLine(left))
        invariant on ==> (token != Eof <==> left.Arg?)
        invariant if on then Chained(es, done, left, tb0, n0, err0, root, t, node) else error
        decreases Count(token, |View()|)
      {
        Replay();
        if on { Unread(left); }
        node, root, t, done, left, on := ProcNext(token, node, root, on, es, t, done, left, tb0, n0, err0);
        if root == NULL { break; }
        token := NextToken();
        if on { ChainedLine(es, done, left, tb0, n0, err0, root, t, node); }
      }
      if on { ChainedAll(es, done, left, tb0, n0, err0, root, t, node); }
    }

    /** finsh_token_init. */
    method Load(tokens: seq<Token>)
      requires nodes.Length == NODE_MAX && Filled(nodes[..], used) && Eof !in tokens
      modifies `rest, `current, `replay
      ensures Ok() && View() == tokens
    {
      rest, current, replay := tokens, Semicolon, false;
    }

    /** The loop has chained the statements `done`, the last of them at `last`. */
    ghost predicate Chained(es: Exprs, done: Exprs, left: Exprs, tb0: Table, n0: nat, err0: bool,
                            root: Ptr, t: Tree, last: Ptr)
      reads `used, `error, nodes
    {
      && error == err0 && Join(done, left) == es && FitsAll(left) && ResolvesAll(left, lookup)
      && NodesAll(done) + NodesAll(left) == NodesAll(es)
      && ParsedAll(tb0, n0, nodes[..], used, root, t, done)
      && (root == NULL <==> t.Nil?) && (t.Nil? <==> done.NoArgs?) && (t.Node? ==> last == LastId(t))
    }

    lemma NothingChained(es: Exprs, tb0: Table, n0: nat)
      requires FitsAll(es) && ResolvesAll(es, lookup) && tb0 == nodes[..] && n0 == used
      requires |tb0| == NODE_MAX && Filled(tb0, n0)
      ensures Chained(es, NoArgs, es, tb0, n0, error, NULL, Nil, NULL)
    {
      hide ParsedAll, Filled, NodesAll;
      NoArgsParsed(tb0, n0);
      NoNodes();
    }

    lemma Unread(left: Exprs)
      requires FitsAll(left) && left.Arg?
      ensures Ahead(First(PrintLine(left)), Rest(PrintLine(left))) == PrintLine(left)
    {
      LineStart(left);
    }

    /** What is left can be written as a line again. */
    lemma ChainedLine(es: Exprs, done: Exprs, left: Exprs, tb0: Table, n0: nat, err0: bool, root: Ptr, t: Tree,
        last: Ptr)
      requires Chained(es, done, left, tb0, n0, err0, root, t, last)
      ensures FitsAll(left) && (First(PrintLine(left)) != Eof <==> left.Arg?)
    {
      hide ParsedAll, NodesAll, First, Rest, PrintLine;
      LineStart(left);
    }

    lemma ChainedAll(es: Exprs, done: Exprs, left: Exprs, tb0: Table, n0: nat, err0: bool, root: Ptr, t: Tree,
        last: Ptr)
      requires Chained(es, done, left, tb0, n0, err0, root, t, last) && left.NoArgs?
      ensures error == err0 && ParsedAll(tb0, n0, nodes[..], used, root, t, es) && n0 + NodesAll(es) <= NODE_MAX
      ensures Rest(PrintLine(left)) == []
    {
      hide ParsedAll, NodesAll;
      LineStart(left);
      JoinNothing(done);
      ParsedAllFacts(tb0, n0, nodes[..], used, root, t, es);
    }

    /** One statement of the line. */
    method ProcNext(token: Token, node: Ptr, root: Ptr, ghost live: bool, ghost es: Exprs, ghost t: Tree,
                    ghost done: Exprs, ghost left: Exprs, ghost tb0: Table, ghost n0: nat, ghost err0: bool)
        returns (node': Ptr, root': Ptr, ghost t': Tree, ghost done': Exprs, ghost left': Exprs, ghost on: bool)
      requires Ok() && (root == NULL <==> node == NULL) && node < used && root < used && View() != []
      requires if live then Chained(es, done, left, tb0, n0, err0, root, t, node) else error
      requires live ==> left.Arg? && View() == PrintLine(left)
      modifies this, nodes
      ensures Onward(old(used), old(View()), old(error), root') && |View()| < |old(View())|
      ensures (root' == NULL <==> node' == NULL) && node' < used
      ensures (on ==> live) && (live && n0 + NodesAll(es) <= NODE_MAX ==> on)
      ensures on ==> root' != NULL && View() == PrintLine(left')
      ensures if on then Chained(es, done', left', tb0, n0, err0, root', t', node') else error
    {
      hide Ok, View, First, Rest, Ahead, ParsedAll, Parsed, Filled, Nodes, NodesAll, Print, Fits, Resolves, PrintLine;
      ghost var tb1, n1, e, behind, u := nodes[..], used, Lit(NullLit), [], Nil;
      t', done', left' := t, done, left;
      if live {
        LineSplits(left);
        NodesAppend(done, left.head);
        JoinMoves(done, left);
        ParsedAllFacts(tb0, n0, tb1, n1, root, t, done);
        e, behind := left.head, PrintLine(left.tail);
      }
      var q;
      q, u := ProcStatement(live, e, behind);
      ghost var tb2 := nodes[..];
      on := live && n1 + Nodes(e) <= NODE_MAX;
      if on {
        ParsedFacts(tb1, n1, tb2, used, q, u, e);
        t', done', left' := Append(t, u), AppendArg(done, left.head), left.tail;
      }
      node', root' := node, root;
      if root != NULL {
        Link(node, q);
        if on { AppendMade(tb0, n0, tb1, n1, root, t, done, tb2, used, q, u, e, nodes[..]); }
        if q != NULL {
          node' := q;
        } else if !token.Ident? {
          var skipped := NextToken();
        }
      } else {
        node', root' := q, q;
        if on { OnlyParsed(tb0, n0, tb1, n1, t, done, tb2, used, q, u, e); }
      }
    }

    /** The node for one token. */
    method Plant(token: Token) returns (p: Ptr)
      requires Ok() && !replay && token == current
      modifies this, nodes
      ensures Ok() && View() == old(View()) && old(used) <= used && p < used && (old(error) ==> error)
      ensures var kind := TokenKind(token, lookup);
              if kind.NoKind? then error
              else if old(used) == NODE_MAX then p == NULL && nodes[..] == old(nodes[..]) && used == old(used) && error
              else p == old(used) && used == old(used) + 1 && error == old(error)
                   && nodes[..] == old(nodes[..])[old(used) := EMPTY.(used := true, kind := kind.kind)]
    {
      hide Filled;
      p := NULL;
      match token {
        case Ident(name) =>
          Replay();
          MatchToken(token);
          p := NewId(name);
        case IntTok(w) => p := NewValue(ConstInt(w));
        case LongTok(w) => p := NewValue(ConstLong(w));
        case CharTok(c) => p := NewValue(ConstChar(c));
        case NullTok => p := NewValue(ConstPtr(0));
        case _ => error := true;
      }
    }
  }

  /** Which entries are empty does not depend on the links and widths of the others. */
  lemma RelinkedFilled(tb: Table, n: nat, k: nat, tb': Table)
    requires Filled(tb, n) && k < n && k < |tb| && |tb'| == |tb| && tb'[k].used == tb[k].used
    requires forall i :: 0 <= i < |tb| && i != k ==> tb'[i] == tb[i]
    ensures Filled(tb', n)
  {
  }

  datatype MaybeKind = NoKind | SomeKind(kind: Kind)

  /** The kind of node a token alone stands for. */
  function TokenKind(token: Token, lookup: string -> Lookup): MaybeKind {
    match token
    case Ident(name) => (match lookup(name) case Missing => NoKind case Found(sym) => SomeKind(Id(sym)))
    case IntTok(w) => SomeKind(ConstInt(w))
    case LongTok(w) => SomeKind(ConstLong(w))
    case CharTok(c) => SomeKind(ConstChar(c))
    case NullTok => SomeKind(ConstPtr(0))
    case _ => NoKind
  }

  // ----- how the written expression splits -----

  function LeftOf(e: Expr): Expr {
    if e.Assign? then e.left else e
  }

  function RightOf(e: Expr): Expr {
    if e.Assign? then e.right else e
  }

  function BehindLeft(e: Expr, more: seq<Token>): seq<Token> {
    if e.Assign? then [AssignTok] + (Print(e.right) + more) else more
  }

  lemma AssignSplits(e: Expr, more: seq<Token>, lookup: string -> Lookup)
    requires Fits(e) && Stops(more, ASSIGN) && Resolves(e, lookup) && Eof !in more
    ensures var l, behind := LeftOf(e), BehindLeft(e, more);
            && Print(e) + more == Print(l) + behind && Stops(behind, OR) && |behind| < |Print(e) + more|
            && Fits(l) && Level(l) >= OR && Resolves(l, lookup) && Nodes(l) <= Nodes(e)
            && (First(behind) == AssignTok <==> e.Assign?)
            && (e.Assign? ==> Rest(behind) == Print(e.right) + more && Fits(e.right) && Resolves(e.right, lookup)
                              && Nodes(e) == 1 + Nodes(l) + Nodes(e.right))
            && (!e.Assign? ==> Ahead(First(behind), Rest(behind)) == more)
  {
    if e.Assign? {
      Behind(Print(e.left), AssignTok, Print(e.right), more);
    } else {
      PutBack(more);
    }
  }

  lemma Behind(a: seq<Token>, t: Token, b: seq<Token>, more: seq<Token>)
    ensures (a + ([t] + b)) + more == a + ([t] + (b + more))
    ensures First([t] + (b + more)) == t && Rest([t] + (b + more)) == b + more
  {
  }

  lemma Begins(t: Token, s: seq<Token>)
    ensures First([t] + s) == t && Rest([t] + s) == s
  {
  }

  lemma PutBack(more: seq<Token>)
    requires Eof !in more
    ensures Ahead(First(more), Rest(more)) == more
  {
    if more != [] {
      var t := more[0];
      assert t in more;
    }
  }

  lemma BuildNothing(b: Expr, items: seq<Item>)
    ensures items[0..] == items && items[..0] == [] && Build(b, items[..0]) == b
  {
  }

  lemma SpineSplits(e: Expr, level: nat, more: seq<Token>, lookup: string -> Lookup)
    requires Fits(e) && Level(e) >= level && Stops(more, level) && Resolves(e, lookup) && OR <= level <= MULTIPLICATIVE
    ensures var b, items := Base(e, level), Items(e, level);
            && Print(e) + more == Print(b) + (PrintItems(items) + more)
            && |PrintItems(items) + more| < |Print(e) + more|
            && Fits(b) && Level(b) >= level + 1 && Resolves(b, lookup) && Nodes(b) <= Nodes(e)
            && Stops(PrintItems(items) + more, level + 1)
  {
    hide Print, Nodes, Level, Resolves, Fits, Base, Items;
    var b, items := Base(e, level), Items(e, level);
    PrintIsSpine(e, level);
    SpineFits(e, level, lookup);
    BuildBack(e, level);
    BuildNothing(b, items);
    NodesGrow(b, items, 0, |items|);
    assert items[..|items|] == items;
    if items != [] { assert OpLevel(items[0].op) == level; }
  }

  /** Longer chains have more nodes. */
  lemma {:induction false} NodesGrow(b: Expr, items: seq<Item>, i: nat, j: nat)
    requires i <= j <= |items|
    ensures Nodes(Build(b, items[..i])) <= Nodes(Build(b, items[..j]))
    decreases j
  {
    if i < j {
      NodesGrow(b, items, i, j - 1);
      assert items[..j][..j - 1] == items[..j - 1];
    }
  }

  lemma ItemSplits(e: Expr, level: nat, i: nat, more: seq<Token>, lookup: string -> Lookup)
    requires Fits(e) && Level(e) >= level && Stops(more, level) && Resolves(e, lookup) && OR <= level <= MULTIPLICATIVE
    requires i < |Items(e, level)|
    ensures var b, items := Base(e, level), Items(e, level);
            var it, d := items[i], Build(b, items[..i]);
            && First(PrintItems(items[i..]) + more) == BinTok(it.op)
            && Rest(PrintItems(items[i..]) + more) == Print(it.arg) + (PrintItems(items[i + 1..]) + more)
            && Stops(PrintItems(items[i + 1..]) + more, level + 1)
            && Fits(it.arg) && Level(it.arg) >= level + 1 && Resolves(it.arg, lookup)
            && Build(b, items[..i + 1]) == Bin(it.op, d, it.arg)
            && Nodes(d) + Nodes(it.arg) + 1 <= Nodes(e)
  {
    hide Print, Level, Resolves, Fits, Base, Items;
    var b, items := Base(e, level), Items(e, level);
    SpineFits(e, level, lookup);
    BuildBack(e, level);
    NodesGrow(b, items, i + 1, |items|);
    assert items[..|items|] == items && items[..i + 1][..i] == items[..i] && items[i..][1..] == items[i + 1..];
    assert OpLevel(items[i].op) == level;
    if i + 1 < |items| { assert OpLevel(items[i + 1].op) == level; }
    Shift(BinTok(items[i].op), Print(items[i].arg), PrintItems(items[i + 1..]), more);
  }

  lemma Shift(t: Token, a: seq<Token>, b: seq<Token>, more: seq<Token>)
    ensures ([t] + (a + b)) + more == [t] + (a + (b + more))
    ensures First([t] + (a + (b + more))) == t && Rest([t] + (a + (b + more))) == a + (b + more)
  {
  }

  lemma SpineEnds(e: Expr, level: nat, i: nat, more: seq<Token>, lookup: string -> Lookup)
    requires Fits(e) && Level(e) >= level && Stops(more, level) && Resolves(e, lookup) && OR <= level <= MULTIPLICATIVE
    requires i <= |Items(e, level)|
    ensures var token := First(PrintItems(Items(e, level)[i..]) + more);
            && ((token.BinTok? && OpLevel(token.op) == level) <==> i < |Items(e, level)|)
            && (i < |Items(e, level)| ==> token == BinTok(Items(e, level)[i].op))
  {
    hide Print, Level, Resolves, Fits, Base, Items;
    SpineFits(e, level, lookup);
    if i < |Items(e, level)| { assert OpLevel(Items(e, level)[i].op) == level; }
  }

  lemma SpineDone(e: Expr, level: nat, i: nat, more: seq<Token>)
    requires i == |Items(e, level)| && Eof !in more
    ensures var s := PrintItems(Items(e, level)[i..]) + more;
            Ahead(First(s), Rest(s)) == more
    ensures Build(Base(e, level), Items(e, level)[..i]) == e
  {
    BuildBack(e, level);
    assert Items(e, level)[..i] == Items(e, level);
  }

  /** Tokens that stand for a whole primary expression. */
  predicate Atom(t: Token) {
    t.Ident? || t.IntTok? || t.LongTok? || t.CharTok? || t.NullTok?
  }

  lemma {:induction false} FirstTokenOf(e: Expr)
    requires Fits(e)
    ensures Print(e)[0] !in {LeftParen, RightParen, Comma, Semicolon, AssignTok, Eof}
    ensures Level(e) >= POSTFIX ==> Atom(Print(e)[0])
    decreases e
  {
    match e
    case Assign(l, r) => FirstTokenOf(l);
    case Bin(op, l, r) => FirstTokenOf(l);
    case Step(prefix, up, a) => if !prefix { FirstTokenOf(a); }
    case Call(f, args) => FirstTokenOf(f);
    case _ =>
  }

  lemma Starts(e: Expr, more: seq<Token>)
    requires Fits(e) && Eof !in more
    ensures var s := Print(e) + more;
            First(s) == Print(e)[0] && First(s) != Eof && Ahead(First(s), Rest(s)) == s && |Rest(s)| < |s|
  {
    FirstTokenOf(e);
  }

  function Operand(e: Expr): Expr {
    match e
    case Neg(a) => a
    case Pos(a) => a
    case Not(a) => a
    case Deref(a) => a
    case AddrOf(a) => a
    case Step(_, _, a) => a
    case _ => e
  }

  predicate Prefixed(e: Expr) {
    e.Pos? || e.Neg? || e.Not? || e.Deref? || e.AddrOf? || (e.Step? && e.prefix)
  }

  function PrefixToken(e: Expr): Token
    requires Prefixed(e)
  {
    match e
    case Pos(_) => BinTok(Add)
    case Neg(_) => BinTok(Sub)
    case Not(_) => BitwiseTok
    case Deref(_) => BinTok(Mul)
    case AddrOf(_) => BinTok(And)
    case Step(_, up, _) => StepToken(up)
  }

  /** The first token of an expression of the unary level tells which one it is. */
  lemma UnarySplits(e: Expr, more: seq<Token>, lookup: string -> Lookup)
    requires Fits(e) && Level(e) >= CAST && Stops(more, CAST) && Resolves(e, lookup)
    ensures var token, a := First(Print(e) + more), Operand(e);
            if Prefixed(e) then
              token == PrefixToken(e) && Rest(Print(e) + more) == Print(a) + more && Fits(a) && Level(a) >= CAST
                && Resolves(a, lookup)
            else Atom(token) && Level(e) >= POSTFIX
    ensures Prefixed(e) ==> OperandOf(e, Operand(e))
    ensures Stops(more, POSTFIX)
  {
    hide Print, Resolves, Nodes;
    if Prefixed(e) {
      PrefixPrints(e);
      PrefixResolves(e, lookup);
      PrefixNodes(e);
    } else {
      FirstTokenOf(e);
    }
  }

  /** The prefix operators that become a node over their operand. */
  function PrefixOp(token: Token): Option<SysOp> {
    match token
    case IncTok => Some(PreInc)
    case DecTok => Some(PreDec)
    case BitwiseTok => Some(BitNot)
    case BinTok(op) => if op == Mul then Some(GetValue) else if op == And then Some(GetAddr) else None
    case _ => None
  }

  /** `op` over `a` is what `e` is. */
  predicate Heads(op: SysOp, a: Expr, e: Expr) {
    (e == Not(a) && op == BitNot) || (e == Deref(a) && op == GetValue) || (e == AddrOf(a) && op == GetAddr)
    || (e.Step? && e.arg == a && op == StepOp(e.prefix, e.up))
  }

  lemma PrefixOpFits(e: Expr)
    requires Prefixed(e) && PrefixOp(PrefixToken(e)).Some?
    ensures Heads(PrefixOp(PrefixToken(e)).value, Operand(e), e) && Nodes(e) == 1 + Nodes(Operand(e))
  {
    hide Nodes;
    PrefixNodes(e);
  }

  predicate OperandOf(e: Expr, a: Expr) {
    match e
    case Pos(x) => x == a && Nodes(e) == Nodes(a)
    case Neg(x) => x == a && Nodes(e) == 2 + Nodes(a)
    case Not(x) => x == a && Nodes(e) == 1 + Nodes(a)
    case Deref(x) => x == a && Nodes(e) == 1 + Nodes(a)
    case AddrOf(x) => x == a && Nodes(e) == 1 + Nodes(a)
    case Step(_, _, x) => x == a && Nodes(e) == 1 + Nodes(a)
    case _ => false
  }

  lemma PrefixPrints(e: Expr)
    requires Prefixed(e)
    ensures Print(e) == [PrefixToken(e)] + Print(Operand(e))
  {
  }

  lemma PrefixResolves(e: Expr, lookup: string -> Lookup)
    requires Prefixed(e) && Resolves(e, lookup)
    ensures Resolves(Operand(e), lookup)
  {
  }

  lemma PrefixNodes(e: Expr)
    requires Prefixed(e)
    ensures OperandOf(e, Operand(e))
  {
  }

  lemma PosIsOperand(tb0: Table, n0: nat, tb1: Table, n1: nat, p: Ptr, t: Tree, a: Expr)
    requires Parsed(tb0, n0, tb1, n1, p, t, a)
    ensures Parsed(tb0, n0, tb1, n1, p, t, Pos(a))
  {
  }

  lemma PostSplits(e: Expr, more: seq<Token>, lookup: string -> Lookup)
    requires Fits(e) && Level(e) >= POSTFIX && Stops(more, POSTFIX) && Resolves(e, lookup)
    ensures var b, ss := PostBase(e), Suffixes(e);
            && Print(e) + more == Print(b) + (PrintSuffixes(ss) + more)
            && |PrintSuffixes(ss) + more| < |Print(e) + more|
            && Fits(b) && Level(b) == PRIMARY && Resolves(b, lookup) && Nodes(b) <= Nodes(e)
            && ss[0..] == ss && BuildPost(b, ss[..0]) == b && Stops(PrintSuffixes(ss) + more, PRIMARY)
  {
    hide Print, Resolves, PostBase, Suffixes;
    var b, ss := PostBase(e), Suffixes(e);
    PrintIsPostSpine(e);
    PostSpineFits(e, lookup);
    BuildPostBack(e);
    PostNodesGrow(b, ss, 0, |ss|);
    assert ss[..|ss|] == ss;
    SuffixesStop(ss, more);
  }

  lemma SuffixesStop(ss: seq<Suffix>, more: seq<Token>)
    requires Stops(more, POSTFIX)
    ensures Stops(PrintSuffixes(ss) + more, PRIMARY)
  {
    if ss != [] { assert (PrintSuffixes(ss) + more)[0] == PrintSuffix(ss[0])[0]; }
  }

  lemma {:induction false} PostNodesGrow(b: Expr, ss: seq<Suffix>, i: nat, j: nat)
    requires i <= j <= |ss|
    ensures Nodes(BuildPost(b, ss[..i])) <= Nodes(BuildPost(b, ss[..j]))
    decreases j
  {
    if i < j {
      PostNodesGrow(b, ss, i, j - 1);
      assert ss[..j][..j - 1] == ss[..j - 1];
    }
  }

  lemma SuffixEnds(e: Expr, i: nat, more: seq<Token>)
    requires Stops(more, POSTFIX) && i <= |Suffixes(e)|
    ensures var token := First(PrintSuffixes(Suffixes(e)[i..]) + more);
            (token == IncTok || token == DecTok || token == LeftParen) <==> i < |Suffixes(e)|
  {
    hide Suffixes;
    var ss := Suffixes(e);
    if i < |ss| { assert (PrintSuffixes(ss[i..]) + more)[0] == PrintSuffix(ss[i])[0]; }
  }

  lemma SuffixSplits(e: Expr, i: nat, more: seq<Token>, lookup: string -> Lookup)
    requires Fits(e) && Level(e) >= POSTFIX && Stops(more, POSTFIX) && Resolves(e, lookup) && i < |Suffixes(e)|
    ensures var b, ss := PostBase(e), Suffixes(e);
            var d, d', behind := BuildPost(b, ss[..i]), BuildPost(b, ss[..i + 1]), PrintSuffixes(ss[i + 1..]) + more;
            var token, then_ := First(PrintSuffixes(ss[i..]) + more), Rest(PrintSuffixes(ss[i..]) + more);
            && Nodes(d') <= Nodes(e)
            && (ss[i].Bump? ==>
                 && token == StepToken(ss[i].up) && then_ == behind
                 && d' == Step(false, ss[i].up, d) && Nodes(d') == 1 + Nodes(d))
            && (ss[i].Apply? ==>
                 && token == LeftParen && then_ == PrintArgs(ss[i].args) + ([RightParen] + behind)
                 && d' == Call(d, ss[i].args) && FitsAll(ss[i].args) && ResolvesAll(ss[i].args, lookup)
                 && Nodes(d') == 1 + Nodes(d) + NodesAll(ss[i].args))
  {
    hide Resolves, PostBase, Suffixes, Print, PrintArgs, Level, Fits;
    var b, ss := PostBase(e), Suffixes(e);
    PostSpineFits(e, lookup);
    BuildPostBack(e);
    PostNodesGrow(b, ss, i + 1, |ss|);
    assert ss[..|ss|] == ss && ss[..i + 1][..i] == ss[..i] && ss[i..][1..] == ss[i + 1..];
    var behind := PrintSuffixes(ss[i + 1..]) + more;
    assert PrintSuffixes(ss[i..]) + more == PrintSuffix(ss[i]) + behind;
    if ss[i].Apply? { CallTokens(PrintArgs(ss[i].args), behind); }
  }

  lemma CallTokens(args: seq<Token>, behind: seq<Token>)
    ensures ([LeftParen] + args + [RightParen]) + behind == [LeftParen] + (args + ([RightParen] + behind))
  {
  }

  lemma PostDone(e: Expr, i: nat, more: seq<Token>)
    requires i == |Suffixes(e)| && Eof !in more
    ensures var s := PrintSuffixes(Suffixes(e)[i..]) + more;
            Ahead(First(s), Rest(s)) == more
    ensures BuildPost(PostBase(e), Suffixes(e)[..i]) == e
  {
    BuildPostBack(e);
    assert Suffixes(e)[..i] == Suffixes(e);
    PutBack(more);
  }

  // ----- argument lists -----

  lemma ArgsStart(args: Exprs, behind: seq<Token>)
    requires FitsAll(args) && First(behind) == RightParen
    ensures var s := PrintArgs(args) + behind;
            (First(s) == RightParen <==> args.NoArgs?) && |s| > 0
  {
    if args.Arg? {
      FirstTokenOf(args.head);
      assert (PrintArgs(args) + behind)[0] == Print(args.head)[0];
    }
  }

  lemma NoArgsParsed(tb: Table, n: nat)
    requires |tb| == NODE_MAX && Filled(tb, n)
    ensures ParsedAll(tb, n, tb, n, NULL, Nil, NoArgs)
  {
  }

  lemma FirstArgSplits(es: Exprs, more: seq<Token>)
    requires es.Arg? && First(more) == RightParen
    ensures PrintArgs(es) + more == Print(es.head) + (PrintMore(es.tail) + more)
    ensures Stops(PrintMore(es.tail) + more, ASSIGN)
    ensures |PrintMore(es.tail) + more| < |PrintArgs(es) + more|
    ensures NodesAll(es) == Nodes(es.head) + NodesAll(es.tail) && NodesAll(Arg(es.head, NoArgs)) == Nodes(es.head)
    ensures Join(Arg(es.head, NoArgs), es.tail) == es
  {
    hide Print, Nodes, PrintMore;
    MoreStops(es.tail, more);
  }

  lemma MoreStops(left: Exprs, more: seq<Token>)
    requires First(more) == RightParen
    ensures Stops(PrintMore(left) + more, ASSIGN)
  {
    hide Print;
    if left.Arg? { assert (PrintMore(left) + more)[0] == Comma; }
  }

  /** The first arguments and the remaining ones. */
  function Join(done: Exprs, left: Exprs): Exprs {
    match done
    case NoArgs => left
    case Arg(x, rest) => Arg(x, Join(rest, left))
  }

  lemma {:induction false} JoinMoves(done: Exprs, left: Exprs)
    requires left.Arg?
    ensures Join(AppendArg(done, left.head), left.tail) == Join(done, left)
    decreases done
  {
    if done.Arg? { JoinMoves(done.tail, left); }
  }

  lemma {:induction false} JoinNothing(done: Exprs)
    ensures Join(done, NoArgs) == done
    decreases done
  {
    if done.Arg? { JoinNothing(done.tail); }
  }

  lemma MoreStart(left: Exprs, more: seq<Token>)
    requires First(more) == RightParen
    ensures First(PrintMore(left) + more) == Comma <==> left.Arg?
    ensures left.NoArgs? ==> PrintMore(left) + more == more && Ahead(First(more), Rest(more)) == more
  {
  }

  lemma MoreSplits(left: Exprs, more: seq<Token>)
    requires left.Arg? && First(more) == RightParen
    ensures PrintMore(left) + more == [Comma] + (Print(left.head) + (PrintMore(left.tail) + more))
    ensures Rest(PrintMore(left) + more) == Print(left.head) + (PrintMore(left.tail) + more)
    ensures Stops(PrintMore(left.tail) + more, ASSIGN) && |PrintMore(left.tail) + more| < |PrintMore(left) + more|
    ensures NodesAll(left) == Nodes(left.head) + NodesAll(left.tail)
  {
    hide Print, Nodes;
    MoreStops(left.tail, more);
    assert PrintMore(left) + more == [Comma] + (Print(left.head) + (PrintMore(left.tail) + more));
  }

  lemma ParsedAllFacts(tb0: Table, n0: nat, tb1: Table, n1: nat, p: Ptr, t: Tree, es: Exprs)
    requires ParsedAll(tb0, n0, tb1, n1, p, t, es)
    ensures n0 <= n1 <= |tb1| == NODE_MAX && n1 == n0 + NodesAll(es)
  {
  }

  /** One argument is a chain of one. */
  lemma OneParsed(tb0: Table, n0: nat, tb1: Table, n1: nat, p: Ptr, t: Tree, e: Expr)
    requires Parsed(tb0, n0, tb1, n1, p, t, e)
    ensures ParsedAll(tb0, n0, tb1, n1, p, t, Arg(e, NoArgs)) && t.Node? && p == LastId(t) && n0 <= p < n1
  {
    ParsedFacts(tb0, n0, tb1, n1, p, t, e);
    FreshNode(tb1, p, t, n0, n1);
    assert EncodesAll(t.sibling, NoArgs);
  }

  /** Linking the next argument behind the last one. */
  lemma AppendMade(tb0: Table, n0: nat, tb1: Table, n1: nat, p: Ptr, t: Tree, done: Exprs,
                   tb2: Table, n2: nat, q: Ptr, u: Tree, e: Expr, tb': Table)
    requires ParsedAll(tb0, n0, tb1, n1, p, t, done) && Parsed(tb1, n1, tb2, n2, q, u, e) && t.Node?
    requires LastId(t) < |tb2| && tb' == tb2[LastId(t) := tb2[LastId(t)].(sibling := q)]
    ensures ParsedAll(tb0, n0, tb', n2, p, Append(t, u), AppendArg(done, e))
    ensures Append(t, u).Node? && LastId(Append(t, u)) == q && tb'[LastId(t)].sibling == q && q != NULL && q < n2
  {
    hide Encodes, EncodesAll;
    ParsedFacts(tb1, n1, tb2, n2, q, u, e);
    FreshPair(tb1, n0, n1, p, t, tb2, n2, q, u);
    AppendIds(t, u);
    AppendShape(tb2, p, t, q, u, tb');
    EncodesAppend(t, done, u, e);
    NodesAppend(done, e);
    LastAppended(t, u);
    FreshNode(tb2, q, u, n1, n2);
    RecordUsed(tb2, n2, LastId(t));
  }

  lemma {:induction false} LastAppended(t: Tree, u: Tree)
    requires u.Node? && u.sibling.Nil?
    ensures Append(t, u).Node? && LastId(Append(t, u)) == u.id
    decreases t
  {
    if t.Node? { LastAppended(t.sibling, u); }
  }

  // ----- whole lines -----

  /** Statements, each with its semicolon. */
  function PrintLine(es: Exprs): seq<Token> {
    match es
    case NoArgs => []
    case Arg(e, more) => Print(e) + ([Semicolon] + PrintLine(more))
  }

  lemma {:induction false} PrintHasNoEof(e: Expr)
    ensures Eof !in Print(e)
    decreases e, 0
  {
    match e
    case Assign(l, r) => PrintHasNoEof(l); PrintHasNoEof(r);
    case Bin(op, l, r) => PrintHasNoEof(l); PrintHasNoEof(r);
    case Call(f, args) => PrintHasNoEof(f); ArgsHaveNoEof(args);
    case Lit(_) =>
    case Var(_, _) =>
    case Step(_, _, a) => PrintHasNoEof(a);
    case Neg(a) => PrintHasNoEof(a);
    case Pos(a) => PrintHasNoEof(a);
    case Not(a) => PrintHasNoEof(a);
    case Deref(a) => PrintHasNoEof(a);
    case AddrOf(a) => PrintHasNoEof(a);
  }

  lemma {:induction false} ArgsHaveNoEof(es: Exprs)
    ensures Eof !in PrintArgs(es) && Eof !in PrintMore(es)
    decreases es, 1
  {
    if es.Arg? {
      PrintHasNoEof(es.head);
      ArgsHaveNoEof(es.tail);
    }
  }

  lemma {:induction false} LineHasNoEof(es: Exprs)
    ensures Eof !in PrintLine(es)
    decreases es
  {
    if es.Arg? {
      PrintHasNoEof(es.head);
      LineHasNoEof(es.tail);
    }
  }

  lemma LineStart(left: Exprs)
    requires FitsAll(left)
    ensures First(PrintLine(left)) != Eof <==> left.Arg?
    ensures left.Arg? ==> Ahead(First(PrintLine(left)), Rest(PrintLine(left))) == PrintLine(left)
    ensures left.NoArgs? ==> Rest(PrintLine(left)) == []
  {
    if left.Arg? {
      FirstTokenOf(left.head);
      assert PrintLine(left)[0] == Print(left.head)[0];
    }
  }

  lemma LineSplits(left: Exprs)
    requires left.Arg? && FitsAll(left)
    ensures PrintLine(left) == Print(left.head) + ([Semicolon] + PrintLine(left.tail))
    ensures Ahead(First(PrintLine(left)), Rest(PrintLine(left))) == PrintLine(left)
    ensures NodesAll(left) == Nodes(left.head) + NodesAll(left.tail)
  {
    hide Nodes;
    LineStart(left);
  }

  lemma NoNodes()
    ensures NodesAll(NoArgs) == 0
  {
  }

  /** The first statement is a chain of one. */
  lemma OnlyParsed(tb0: Table, n0: nat, tb1: Table, n1: nat, t: Tree, done: Exprs,
                   tb2: Table, n2: nat, q: Ptr, u: Tree, e: Expr)
    requires ParsedAll(tb0, n0, tb1, n1, NULL, t, done) && t.Nil? && done.NoArgs? && Parsed(tb1, n1, tb2, n2, q, u, e)
    ensures ParsedAll(tb0, n0, tb2, n2, q, Append(t, u), AppendArg(done, e))
    ensures Append(t, u).Node? && q == LastId(Append(t, u)) && q < n2
  {
    OneParsed(tb1, n1, tb2, n2, q, u, e);
  }
}
