/** A line typed into the shell, from its tokens to its value. */
module FinshShell {
  import opened Basics
  import opened FinshWords
  import opened FinshSyntax
  import opened FinshMachine
  import opened FinshNodes
  import opened FinshCompiler
  import opened FinshProgram
  import opened FinshGrammar
  import opened FinshProductions
  import FinshParser

  /** Statements as finsh_parser.c derives them, each an expression and a semicolon. */
  predicate Line(es: Exprs, s: seq<Token>)
    decreases es
  {
    match es
    case NoArgs => s == []
    case Arg(e, more) =>
      exists k {:trigger s[k]} :: 0 <= k < |s| && s[k] == Semicolon && AssignExpr(e, s[..k]) && Line(more, s[k + 1..])
  }

  /** A line is derived exactly when it is what is printed for statements that need no
      parentheses. */
  lemma {:induction false} LineIs(es: Exprs, s: seq<Token>)
    ensures Line(es, s) <==> FitsAll(es) && s == FinshParser.PrintLine(es)
    decreases es
  {
    hide AssignExpr, Print, Fits, FitsAll;
    AllFit(es);
    if es.Arg? {
      var e, more := es.head, es.tail;
      var r := Print(e) + ([Semicolon] + FinshParser.PrintLine(more));
      assert FinshParser.PrintLine(es) == r && r[|Print(e)|] == Semicolon;
      forall k {:trigger s[k]} | 0 <= k < |s|
        ensures s[k] == Semicolon && AssignExpr(e, s[..k]) && Line(more, s[k + 1..])
           <==> k == |Print(e)| && FitsAll(es) && s == r
      {
        AssignExprIs(e, s[..k]);
        LineIs(more, s[k + 1..]);
        Joined(s, k, Print(e), Semicolon, FinshParser.PrintLine(more));
      }
    }
  }

  /** The code of a line: statement by statement, dropping every value but the last. */
  function LineCode(es: Exprs): seq<byte> {
    match es
    case NoArgs => []
    case Arg(e, more) => if more.NoArgs? then ValueCode(e) else ValueCode(e) + ([OP_POP] + LineCode(more))
  }

  lemma {:induction false} StatementsCodeIsLineCode(t: Tree, es: Exprs)
    requires EncodesAll(t, es) && SoundAll(es)
    ensures StatementsCode(Check(t, false)) == LineCode(es)
    decreases es
  {
    hide Own, ValueCode;
    if es.Arg? {
      OwnIsValueCode(t, es.head);
      StatementsCodeIsLineCode(t.sibling, es.tail);
    }
  }

  /** Parse a line into an empty table, mark and compile it, and run it, for every line that the
      productions derive for sound statements whose code fits the text segment.
      The line is reported as an error exactly when its tree does not fit the node table, and is
      then not run. Otherwise the bottom of the stack is the last statement's value and the
      store has gone through all of them. */
  method Evaluate(parser: FinshParser.Parser, vm: Vm, tokens: seq<Token>, ghost es: Exprs) returns (ok: bool)
    requires es.Arg? && Line(es, tokens) && ResolvesAll(es, parser.lookup) && SoundAll(es)
    requires parser.nodes.Length == NODE_MAX && Filled(parser.nodes[..], 0) && parser.used == 0
    requires |LineCode(es)| <= TEXT_MAX && vm.Valid()
    modifies parser, parser.nodes, vm, vm.text, vm.stack
    ensures parser.error <==> old(parser.error) || NodesAll(es) > NODE_MAX
    ensures parser.error ==> !ok && vm.store == old(vm.store) && vm.stack[..] == old(vm.stack[..])
    ensures var r := EvalStatements(vm.sys, es, old(vm.store));
            !parser.error ==>
              ok == r.Value?
              && (ok ==> vm.sp == 1 && vm.stack.Length > 0 && vm.stack[0] == r.w && vm.store == r.store)
    ensures vm.Valid()
  {
    hide Filled, EvalStatements, NodesAll, LineCode, Line;
    LineIs(es, tokens);
    var root: Ptr;
    ghost var t: Tree;
    root, t := parser.Run(tokens, es);
    if parser.error { return false; }
    Chain(parser.nodes[..], root, t, es);
    StatementsCodeIsLineCode(t, es);
    SizeIsNodesAll(t, es);
    ok := RunLine(vm, parser.nodes, root, t, es);
  }

  lemma Chain(tb: Table, root: Ptr, t: Tree, es: Exprs)
    requires exists tb0, n0: nat, n1: nat :: FinshParser.ParsedAll(tb0, n0, tb, n1, root, t, es)
    ensures Shape(tb, root, t) && Apart(t) && EncodesAll(t, es)
  {
  }
}
