/** The grammar that finsh_parser.c writes down, production by production with the operators
    named, over token strings; and that it derives exactly the strings that printing yields for
    the expressions that need no parentheses. */
module FinshProductions {
  import opened Basics
  import opened FinshWords
  import opened FinshSyntax
  import opened FinshGrammar

  // ----- the productions -----

  /** proc_assign_expr. */
  predicate AssignExpr(e: Expr, s: seq<Token>)
    decreases e, 10
  {
    OrExpr(e, s)
    || (e.Assign? && exists k {:trigger s[k]} :: 0 <= k < |s| && s[k] == AssignTok
                                     && OrExpr(e.left, s[..k]) && AssignExpr(e.right, s[k + 1..]))
  }

  /** proc_inclusive_or_expr. */
  predicate OrExpr(e: Expr, s: seq<Token>)
    decreases e, 9
  {
    XorExpr(e, s)
    || (e.Bin? && e.op == Or
        && exists k {:trigger s[k]} :: 0 <= k < |s| && s[k] == BinTok(e.op)
                             && OrExpr(e.left, s[..k]) && XorExpr(e.right, s[k + 1..]))
  }

  /** proc_exclusive_or_expr. */
  predicate XorExpr(e: Expr, s: seq<Token>)
    decreases e, 8
  {
    AndExpr(e, s)
    || (e.Bin? && e.op == Xor
        && exists k {:trigger s[k]} :: 0 <= k < |s| && s[k] == BinTok(e.op)
                             && XorExpr(e.left, s[..k]) && AndExpr(e.right, s[k + 1..]))
  }

  /** proc_and_expr. */
  predicate AndExpr(e: Expr, s: seq<Token>)
    decreases e, 7
  {
    ShiftExpr(e, s)
    || (e.Bin? && e.op == And
        && exists k {:trigger s[k]} :: 0 <= k < |s| && s[k] == BinTok(e.op)
                             && AndExpr(e.left, s[..k]) && ShiftExpr(e.right, s[k + 1..]))
  }

  /** proc_shift_expr. */
  predicate ShiftExpr(e: Expr, s: seq<Token>)
    decreases e, 6
  {
    AdditiveExpr(e, s)
    || (e.Bin? && (e.op == Shl || e.op == Shr)
        && exists k {:trigger s[k]} :: 0 <= k < |s| && s[k] == BinTok(e.op)
                             && ShiftExpr(e.left, s[..k]) && AdditiveExpr(e.right, s[k + 1..]))
  }

  /** proc_additive_expr. */
  predicate AdditiveExpr(e: Expr, s: seq<Token>)
    decreases e, 5
  {
    MultiplicativeExpr(e, s)
    || (e.Bin? && (e.op == Add || e.op == Sub)
        && exists k {:trigger s[k]} :: 0 <= k < |s| && s[k] == BinTok(e.op)
                             && AdditiveExpr(e.left, s[..k]) && MultiplicativeExpr(e.right, s[k + 1..]))
  }

  /** proc_multiplicative_expr. */
  predicate MultiplicativeExpr(e: Expr, s: seq<Token>)
    decreases e, 4
  {
    CastExpr(e, s)
    || (e.Bin? && (e.op == Mul || e.op == Div || e.op == Mod)
        && exists k {:trigger s[k]} :: 0 <= k < |s| && s[k] == BinTok(e.op)
                             && MultiplicativeExpr(e.left, s[..k]) && CastExpr(e.right, s[k + 1..]))
  }

  /** proc_cast_expr, without types, and proc_unary_expr. */
  predicate CastExpr(e: Expr, s: seq<Token>)
    decreases e, 3
  {
    if s == [] then false
    else
      match s[0]
      case BinTok(Add) => e.Pos? && CastExpr(e.arg, s[1..])
      case BinTok(Sub) => e.Neg? && CastExpr(e.arg, s[1..])
      case BinTok(Mul) => e.Deref? && CastExpr(e.arg, s[1..])
      case BinTok(And) => e.AddrOf? && CastExpr(e.arg, s[1..])
      case BitwiseTok => e.Not? && CastExpr(e.arg, s[1..])
      case IncTok => e.Step? && e.prefix && e.up && CastExpr(e.arg, s[1..])
      case DecTok => e.Step? && e.prefix && !e.up && CastExpr(e.arg, s[1..])
      case _ => PostfixExpr(e, s)
  }

  /** proc_postfix_expr. */
  predicate PostfixExpr(e: Expr, s: seq<Token>)
    decreases e, 2
  {
    PrimaryExpr(e, s)
    || (e.Step? && !e.prefix && |s| > 0 && s[|s| - 1] == (if e.up then IncTok else DecTok)
        && PostfixExpr(e.arg, s[..|s| - 1]))
    || (e.Call? && |s| > 0 && s[|s| - 1] == RightParen
        && exists k {:trigger s[k]} :: 0 <= k < |s| - 1 && s[k] == LeftParen
                             && PostfixExpr(e.callee, s[..k]) && ArgumentList(e.args, s[k + 1..|s| - 1]))
  }

  /** proc_primary_expr. */
  predicate PrimaryExpr(e: Expr, s: seq<Token>) {
    |s| == 1 &&
    match s[0]
    case Ident(name) => e.Var? && e.name == name
    case IntTok(w) => e == Lit(IntLit(w))
    case LongTok(w) => e == Lit(LongLit(w))
    case CharTok(c) => e == Lit(CharLit(c))
    case NullTok => e == Lit(NullLit)
    case _ => false
  }

  /** The part of a call between its parentheses. */
  predicate ArgumentList(es: Exprs, s: seq<Token>)
    decreases es, 12
  {
    if es.NoArgs? then s == [] else ParameterList(es, s)
  }

  /** proc_param_list, for the arguments of a call. */
  predicate ParameterList(es: Exprs, s: seq<Token>)
    decreases es, 11
  {
    es.Arg?
    && if es.tail.NoArgs? then AssignExpr(es.head, s)
       else exists k {:trigger s[k]} :: 0 <= k < |s| && s[k] == Comma
                                && AssignExpr(es.head, s[..k]) && ParameterList(es.tail, s[k + 1..])
  }

  // ----- they derive what is printed -----

  lemma Joined(s: seq<Token>, k: nat, a: seq<Token>, t: Token, b: seq<Token>)
    requires k < |s|
    ensures s[..k] == a && s[k] == t && s[k + 1..] == b <==> k == |a| && s == a + ([t] + b)
  {
    var r := a + ([t] + b);
    if s[..k] == a && s[k] == t && s[k + 1..] == b {
      assert s == s[..k] + ([s[k]] + s[k + 1..]);
    }
    if k == |a| && s == r {
      assert r[..k] == a && r[k] == t && r[k + 1..] == b;
    }
  }

  lemma {:induction false} AssignExprIs(e: Expr, s: seq<Token>)
    ensures AssignExpr(e, s) <==> Fits(e) && s == Print(e)
    decreases e, 10
  {
    hide OrExpr, XorExpr, AndExpr, ShiftExpr, AdditiveExpr, MultiplicativeExpr, CastExpr, PrintArgs;
    OrExprIs(e, s);
    if e.Assign? {
      forall k {:trigger s[k]} | 0 <= k < |s|
        ensures s[k] == AssignTok && OrExpr(e.left, s[..k]) && AssignExpr(e.right, s[k + 1..])
           <==> k == |Print(e.left)| && Fits(e) && s == Print(e)
      {
        OrExprIs(e.left, s[..k]);
        AssignExprIs(e.right, s[k + 1..]);
        Joined(s, k, Print(e.left), AssignTok, Print(e.right));
      }
      if Fits(e) && s == Print(e) { assert s[|Print(e.left)|] == AssignTok; }
    }
  }

  lemma {:induction false} OrExprIs(e: Expr, s: seq<Token>)
    ensures OrExpr(e, s) <==> Fits(e) && Level(e) >= 1 && s == Print(e)
    decreases e, 9
  {
    hide AssignExpr, XorExpr, AndExpr, ShiftExpr, AdditiveExpr, MultiplicativeExpr, CastExpr, PrintArgs;
    XorExprIs(e, s);
    if e.Bin? && e.op == Or {
      forall k {:trigger s[k]} | 0 <= k < |s|
        ensures s[k] == BinTok(e.op) && OrExpr(e.left, s[..k]) && XorExpr(e.right, s[k + 1..])
           <==> k == |Print(e.left)| && Fits(e) && s == Print(e)
      {
        OrExprIs(e.left, s[..k]);
        XorExprIs(e.right, s[k + 1..]);
        Joined(s, k, Print(e.left), BinTok(e.op), Print(e.right));
      }
      if Fits(e) && s == Print(e) { assert s[|Print(e.left)|] == BinTok(e.op); }
    }
  }

  lemma {:induction false} XorExprIs(e: Expr, s: seq<Token>)
    ensures XorExpr(e, s) <==> Fits(e) && Level(e) >= 2 && s == Print(e)
    decreases e, 8
  {
    hide AssignExpr, OrExpr, AndExpr, ShiftExpr, AdditiveExpr, MultiplicativeExpr, CastExpr, PrintArgs;
    AndExprIs(e, s);
    if e.Bin? && e.op == Xor {
      forall k {:trigger s[k]} | 0 <= k < |s|
        ensures s[k] == BinTok(e.op) && XorExpr(e.left, s[..k]) && AndExpr(e.right, s[k + 1..])
           <==> k == |Print(e.left)| && Fits(e) && s == Print(e)
      {
        XorExprIs(e.left, s[..k]);
        AndExprIs(e.right, s[k + 1..]);
        Joined(s, k, Print(e.left), BinTok(e.op), Print(e.right));
      }
      if Fits(e) && s == Print(e) { assert s[|Print(e.left)|] == BinTok(e.op); }
    }
  }

  lemma {:induction false} AndExprIs(e: Expr, s: seq<Token>)
    ensures AndExpr(e, s) <==> Fits(e) && Level(e) >= 3 && s == Print(e)
    decreases e, 7
  {
    hide AssignExpr, OrExpr, XorExpr, ShiftExpr, AdditiveExpr, MultiplicativeExpr, CastExpr, PrintArgs;
    ShiftExprIs(e, s);
    if e.Bin? && e.op == And {
      forall k {:trigger s[k]} | 0 <= k < |s|
        ensures s[k] == BinTok(e.op) && AndExpr(e.left, s[..k]) && ShiftExpr(e.right, s[k + 1..])
           <==> k == |Print(e.left)| && Fits(e) && s == Print(e)
      {
        AndExprIs(e.left, s[..k]);
        ShiftExprIs(e.right, s[k + 1..]);
        Joined(s, k, Print(e.left), BinTok(e.op), Print(e.right));
      }
      if Fits(e) && s == Print(e) { assert s[|Print(e.left)|] == BinTok(e.op); }
    }
  }

  lemma {:induction false} ShiftExprIs(e: Expr, s: seq<Token>)
    ensures ShiftExpr(e, s) <==> Fits(e) && Level(e) >= 4 && s == Print(e)
    decreases e, 6
  {
    hide AssignExpr, OrExpr, XorExpr, AndExpr, AdditiveExpr, MultiplicativeExpr, CastExpr, PrintArgs;
    AdditiveExprIs(e, s);
    if e.Bin? && (e.op == Shl || e.op == Shr) {
      forall k {:trigger s[k]} | 0 <= k < |s|
        ensures s[k] == BinTok(e.op) && ShiftExpr(e.left, s[..k]) && AdditiveExpr(e.right, s[k + 1..])
           <==> k == |Print(e.left)| && Fits(e) && s == Print(e)
      {
        ShiftExprIs(e.left, s[..k]);
        AdditiveExprIs(e.right, s[k + 1..]);
        Joined(s, k, Print(e.left), BinTok(e.op), Print(e.right));
      }
      if Fits(e) && s == Print(e) { assert s[|Print(e.left)|] == BinTok(e.op); }
    }
  }

  lemma {:induction false} AdditiveExprIs(e: Expr, s: seq<Token>)
    ensures AdditiveExpr(e, s) <==> Fits(e) && Level(e) >= 5 && s == Print(e)
    decreases e, 5
  {
    hide AssignExpr, OrExpr, XorExpr, AndExpr, ShiftExpr, MultiplicativeExpr, CastExpr, PrintArgs;
    MultiplicativeExprIs(e, s);
    if e.Bin? && (e.op == Add || e.op == Sub) {
      forall k {:trigger s[k]} | 0 <= k < |s|
        ensures s[k] == BinTok(e.op) && AdditiveExpr(e.left, s[..k]) && MultiplicativeExpr(e.right, s[k + 1..])
           <==> k == |Print(e.left)| && Fits(e) && s == Print(e)
      {
        AdditiveExprIs(e.left, s[..k]);
        MultiplicativeExprIs(e.right, s[k + 1..]);
        Joined(s, k, Print(e.left), BinTok(e.op), Print(e.right));
      }
      if Fits(e) && s == Print(e) { assert s[|Print(e.left)|] == BinTok(e.op); }
    }
  }

  lemma {:induction false} MultiplicativeExprIs(e: Expr, s: seq<Token>)
    ensures MultiplicativeExpr(e, s) <==> Fits(e) && Level(e) >= 6 && s == Print(e)
    decreases e, 4
  {
    hide AssignExpr, OrExpr, XorExpr, AndExpr, ShiftExpr, AdditiveExpr, CastExpr, PrintArgs;
    CastExprIs(e, s);
    if e.Bin? && (e.op == Mul || e.op == Div || e.op == Mod) {
      forall k {:trigger s[k]} | 0 <= k < |s|
        ensures s[k] == BinTok(e.op) && MultiplicativeExpr(e.left, s[..k]) && CastExpr(e.right, s[k + 1..])
           <==> k == |Print(e.left)| && Fits(e) && s == Print(e)
      {
        MultiplicativeExprIs(e.left, s[..k]);
        CastExprIs(e.right, s[k + 1..]);
        Joined(s, k, Print(e.left), BinTok(e.op), Print(e.right));
      }
      if Fits(e) && s == Print(e) { assert s[|Print(e.left)|] == BinTok(e.op); }
    }
  }

  lemma {:induction false} CastExprIs(e: Expr, s: seq<Token>)
    ensures CastExpr(e, s) <==> Fits(e) && Level(e) >= CAST && s == Print(e)
    decreases e, 3
  {
    hide AssignExpr, OrExpr, PostfixExpr, ArgumentList, PrintArgs, OpLevel;
    if s != [] {
      if PrefixToken(s[0]) {
        if Level(e) >= POSTFIX && Fits(e) { PostfixStarts(e); }
        if Prefixed(e) {
          CastExprIs(e.arg, s[1..]);
          assert s == [s[0]] + s[1..];
        }
      } else {
        PostfixExprIs(e, s);
      }
    }
  }

  predicate PrefixToken(t: Token) {
    t == BinTok(Add) || t == BinTok(Sub) || t == BinTok(Mul) || t == BinTok(And)
    || t == BitwiseTok || t == IncTok || t == DecTok
  }

  predicate Prefixed(e: Expr) {
    e.Pos? || e.Neg? || e.Deref? || e.AddrOf? || e.Not? || (e.Step? && e.prefix)
  }

  lemma {:induction false} PostfixStarts(e: Expr)
    requires Fits(e) && Level(e) >= POSTFIX
    ensures !PrefixToken(Print(e)[0])
    decreases e
  {
    match e
    case Step(prefix, _, a) => PostfixStarts(a);
    case Call(f, _) => PostfixStarts(f);
    case _ =>
  }

  lemma Appended(s: seq<Token>, a: seq<Token>, t: Token)
    requires s != []
    ensures s[..|s| - 1] == a && s[|s| - 1] == t <==> s == a + [t]
  {
    assert s == s[..|s| - 1] + [s[|s| - 1]];
    assert (a + [t])[..|a|] == a;
  }

  lemma {:induction false} PostfixExprIs(e: Expr, s: seq<Token>)
    ensures PostfixExpr(e, s) <==> Fits(e) && Level(e) >= POSTFIX && s == Print(e)
    decreases e, 2
  {
    hide CastExpr, ArgumentList, PrintArgs, OpLevel;
    if e.Call? {
      CallIs(e, s);
    } else if e.Step? && !e.prefix && s != [] {
      PostfixExprIs(e.arg, s[..|s| - 1]);
      Appended(s, Print(e.arg), StepToken(e.up));
    }
  }

  lemma {:induction false} CallIs(e: Expr, s: seq<Token>)
    requires e.Call?
    ensures PostfixExpr(e, s) <==> Fits(e) && s == Print(e)
    decreases e, 1
  {
    hide CastExpr, ArgumentList, PrintArgs, OpLevel, FitsAll;
    var f, args := Print(e.callee), PrintArgs(e.args);
    if |s| > 0 {
      var n := |s| - 1;
      forall k {:trigger s[k]} | 0 <= k < n
        ensures s[k] == LeftParen && PostfixExpr(e.callee, s[..k]) && ArgumentList(e.args, s[k + 1..n])
                && s[n] == RightParen
           <==> k == |f| && Fits(e) && s == Print(e)
      {
        PostfixExprIs(e.callee, s[..k]);
        ArgumentListIs(e.args, s[k + 1..n]);
        Enclosed(s, k, f, args);
      }
      if Fits(e) && s == Print(e) { assert s[|f|] == LeftParen; }
    }
  }

  lemma Enclosed(s: seq<Token>, k: nat, a: seq<Token>, b: seq<Token>)
    requires k < |s| - 1
    ensures s[..k] == a && s[k] == LeftParen && s[k + 1..|s| - 1] == b && s[|s| - 1] == RightParen
       <==> k == |a| && s == a + ([LeftParen] + b + [RightParen])
  {
    Joined(s, k, a, LeftParen, b + [RightParen]);
    var r := s[k + 1..];
    assert r == r[..|r| - 1] + [r[|r| - 1]] && r[..|r| - 1] == s[k + 1..|s| - 1];
    assert (b + [RightParen])[..|b|] == b;
    assert [LeftParen] + (b + [RightParen]) == [LeftParen] + b + [RightParen];
  }

  lemma {:induction false} ArgumentListIs(es: Exprs, s: seq<Token>)
    ensures ArgumentList(es, s) <==> FitsAll(es) && s == PrintArgs(es)
    decreases es, 12
  {
    if es.Arg? { ParameterListIs(es, s); }
  }

  lemma PrintsMore(es: Exprs)
    ensures es.Arg? ==> PrintMore(es) == [Comma] + PrintArgs(es)
  {
  }

  lemma AllFit(es: Exprs)
    ensures FitsAll(es) <==> (es.Arg? ==> Fits(es.head) && FitsAll(es.tail))
    ensures FitsAll(NoArgs)
  {
  }

  lemma {:induction false} ParameterListIs(es: Exprs, s: seq<Token>)
    ensures ParameterList(es, s) <==> es.Arg? && FitsAll(es) && s == PrintArgs(es)
    decreases es, 11
  {
    hide AssignExpr, Print, Fits, FitsAll;
    AllFit(es);
    if es.Arg? {
      var e, more := es.head, es.tail;
      AssignExprIs(e, s);
      if more.NoArgs? {
        assert PrintArgs(es) == Print(e) + [] == Print(e);
      } else {
        forall k {:trigger s[k]} | 0 <= k < |s|
          ensures s[k] == Comma && AssignExpr(e, s[..k]) && ParameterList(more, s[k + 1..])
             <==> k == |Print(e)| && FitsAll(es) && s == PrintArgs(es)
        {
          AssignExprIs(e, s[..k]);
          ParameterListIs(more, s[k + 1..]);
          PrintsMore(more);
          Joined(s, k, Print(e), Comma, PrintArgs(more));
        }
        PrintsMore(more);
        var r := Print(e) + ([Comma] + PrintArgs(more));
        assert PrintArgs(es) == r && r[|Print(e)|] == Comma;
      }
    }
  }

  // ----- what that means -----

  predicate IsShift(op: BinOp) {
    op == Shl || op == Shr
  }

  predicate IsSum(op: BinOp) {
    op == Add || op == Sub
  }

  predicate IsProduct(op: BinOp) {
    op == Mul || op == Div || op == Mod
  }

  /** `o2` binds tighter than `o1`. */
  predicate Tighter(o1: BinOp, o2: BinOp) {
    match o1
    case Or => o2 != Or
    case Xor => o2 != Or && o2 != Xor
    case And => IsShift(o2) || IsSum(o2) || IsProduct(o2)
    case Shl => IsSum(o2) || IsProduct(o2)
    case Shr => IsSum(o2) || IsProduct(o2)
    case Add => IsProduct(o2)
    case Sub => IsProduct(o2)
    case _ => false
  }

  /** Of two operators in a row the tighter one takes the operand between them, and of two that
      bind alike the left one. */
  lemma NestsByTightness(o1: BinOp, o2: BinOp, a: Expr, b: Expr, c: Expr, t: Token, u: Token, v: Token)
    requires PrimaryExpr(a, [t]) && PrimaryExpr(b, [u]) && PrimaryExpr(c, [v])
    ensures var s := [t, BinTok(o1), u, BinTok(o2), v];
            var left, right := Bin(o2, Bin(o1, a, b), c), Bin(o1, a, Bin(o2, b, c));
            && (AssignExpr(left, s) <==> !Tighter(o1, o2)) && (AssignExpr(right, s) <==> Tighter(o1, o2))
  {
    var s, left, right := [t, BinTok(o1), u, BinTok(o2), v], Bin(o2, Bin(o1, a, b), c), Bin(o1, a, Bin(o2, b, c));
    LeafPrints(a, t);
    LeafPrints(b, u);
    LeafPrints(c, v);
    FitsNested(o1, o2, a, b, c);
    PrintsInRow(o1, o2, a, b, c, t, u, v);
    hide AssignExpr, Fits, Print, Tighter, PrimaryExpr;
    AssignExprIs(left, s);
    AssignExprIs(right, s);
  }

  lemma LeafPrints(e: Expr, t: Token)
    requires PrimaryExpr(e, [t])
    ensures (e.Lit? || e.Var?) && Print(e) == [t]
  {
  }

  lemma FitsNested(o1: BinOp, o2: BinOp, a: Expr, b: Expr, c: Expr)
    requires (a.Lit? || a.Var?) && (b.Lit? || b.Var?) && (c.Lit? || c.Var?)
    ensures Fits(Bin(o2, Bin(o1, a, b), c)) <==> !Tighter(o1, o2)
    ensures Fits(Bin(o1, a, Bin(o2, b, c))) <==> Tighter(o1, o2)
  {
    assert Fits(a) && Fits(b) && Fits(c);
    assert Fits(Bin(o1, a, b)) && Fits(Bin(o2, b, c));
  }

  lemma PrintsInRow(o1: BinOp, o2: BinOp, a: Expr, b: Expr, c: Expr, t: Token, u: Token, v: Token)
    requires Print(a) == [t] && Print(b) == [u] && Print(c) == [v]
    ensures Print(Bin(o2, Bin(o1, a, b), c)) == [t, BinTok(o1), u, BinTok(o2), v]
    ensures Print(Bin(o1, a, Bin(o2, b, c))) == [t, BinTok(o1), u, BinTok(o2), v]
  {
    assert Print(Bin(o1, a, b)) == [t, BinTok(o1), u];
    assert Print(Bin(o2, b, c)) == [u, BinTok(o2), v];
  }

  /** The comment above proc_assign_expr asks for a unary expression on the left of `=`; the code
      takes any expression that is no assignment. */
  lemma AssignsToSum(x: word, y: word, z: word)
    ensures AssignExpr(Assign(Bin(Add, Lit(IntLit(x)), Lit(IntLit(y))), Lit(IntLit(z))),
              [IntTok(x), BinTok(Add), IntTok(y), AssignTok, IntTok(z)])
  {
    var a, b, c := Lit(IntLit(x)), Lit(IntLit(y)), Lit(IntLit(z));
    var sum, s := Bin(Add, a, b), [IntTok(x), BinTok(Add), IntTok(y), AssignTok, IntTok(z)];
    assert Fits(a) && Fits(b) && Fits(c);
    assert Fits(sum) && Print(sum) == [IntTok(x), BinTok(Add), IntTok(y)];
    assert Fits(Assign(sum, c)) && Print(Assign(sum, c)) == s;
    hide AssignExpr;
    AssignExprIs(Assign(sum, c), s);
  }
}
