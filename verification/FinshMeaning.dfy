/** What evaluating an expression does to the store, said of the words and bytes in it. */
module FinshMeaning {
  import opened Basics
  import opened FinshWords
  import opened FinshOperators
  import opened FinshSyntax

  /** Nothing but the four bytes at `a` differs. */
  ghost predicate SameElsewhere(m: Store, m': Store, a: word) {
    m'.Keys == m.Keys && forall b: word {:trigger m'[b]} :: b in m && !(a <= b < a + 4) ==> m'[b] == m[b]
  }

  lemma SavedElsewhere(m: Store, a: word, w: word)
    requires Mapped(m, a)
    ensures var m' := Save(m, a, w).value; SameElsewhere(m, m', a) && Load(m', a) == Some(w)
  {
    SaveThenLoad(m, a, w);
    hide Save, Load;
    forall b: word {:trigger b in m} ensures Save(m, a, w).value.Keys == m.Keys
      && (b in m && !(a <= b < a + 4) ==> Save(m, a, w).value[b] == m[b])
    {
      SaveElsewhere(m, a, w, b);
    }
    SaveElsewhere(m, a, w, 0);
  }

  /** An assignment leaves its value, and only that, at the address of its left side, which is
      determined before its right side is evaluated; it faults when either side does or there is
      no memory at that address. */
  lemma AssignMeans(sys: Sys, l: Expr, r: Expr, m: Store)
    ensures var place, result := Address(sys, l, m), Eval(sys, Assign(l, r), m);
            if place.Fault? then result.Fault?
            else
              var value := Eval(sys, r, place.store);
              if value.Fault? || !Mapped(value.store, place.w) then result.Fault?
              else result.Value? && result.w == value.w && Load(result.store, place.w) == Some(value.w)
                   && SameElsewhere(value.store, result.store, place.w)
  {
    hide Load, Save, Mapped, SameElsewhere;
    var place := Address(sys, l, m);
    if place.Value? {
      var value := Eval(sys, r, place.store);
      if value.Value? && Mapped(value.store, place.w) { SavedElsewhere(value.store, place.w, value.w); }
    }
  }

  /** `++` and `--` leave the word at their operand's address one more or one less than it was;
      in front they yield what is there afterwards, behind what was there before. */
  lemma StepMeans(sys: Sys, prefix: bool, up: bool, l: Expr, m: Store)
    ensures var place, result := Address(sys, l, m), Eval(sys, Step(prefix, up, l), m);
            if place.Fault? || Load(place.store, place.w).None? then result.Fault?
            else
              result.Value? && Load(result.store, place.w).Some?
              && var before, after := Load(place.store, place.w).value, Load(result.store, place.w).value;
                 && Congruent(after, if up then before + 1 else before - 1)
                 && result.w == (if prefix then after else before)
                 && SameElsewhere(place.store, result.store, place.w)
  {
    StepUnfolds(sys, prefix, up, l, m);
    hide Eval, Address, Save, Load, Mapped, SameElsewhere, Congruent, Bumped;
    var place := Address(sys, l, m);
    if place.Value? && Load(place.store, place.w).Some? {
      var before := Load(place.store, place.w).value;
      BumpedBy(before, up);
      SavedElsewhere(place.store, place.w, Bumped(before, up));
    }
  }

  lemma StepUnfolds(sys: Sys, prefix: bool, up: bool, l: Expr, m: Store)
    ensures var place, result := Address(sys, l, m), Eval(sys, Step(prefix, up, l), m);
            if place.Fault? || Load(place.store, place.w).None? then result.Fault?
            else
              Mapped(place.store, place.w)
              && var before := Load(place.store, place.w).value;
                 result == Value(if prefix then Bumped(before, up) else before,
                             Save(place.store, place.w, Bumped(before, up)).value)
  {
  }

  lemma BumpedBy(w: word, up: bool)
    ensures Congruent(Bumped(w, up), if up then w + 1 else w - 1)
  {
    hide Wrap, Congruent;
    WrapCongruent(w + 1);
    WrapCongruent(w - 1);
  }

  /** Unary minus yields the word that adds up to zero with its operand. */
  lemma NegMeans(sys: Sys, a: Expr, m: Store)
    ensures var x, result := Eval(sys, a, m), Eval(sys, Neg(a), m);
            if x.Fault? then result.Fault?
            else result.Value? && result.store == x.store && Congruent(Signed(result.w), -Signed(x.w))
  {
    var x := Eval(sys, a, m);
    if x.Value? {
      SignedCongruent(x.w);
      WrapCongruent(WORD_LIMIT - x.w);
      hide Wrap, Signed, Congruent;
      Opposed(x.w, Signed(x.w));
      CongruentTrans(Signed(Wrap(WORD_LIMIT - x.w)), WORD_LIMIT - x.w, -Signed(x.w));
    }
  }

  lemma Opposed(x: int, y: int)
    requires Congruent(x, y)
    ensures Congruent(WORD_LIMIT - x, -y)
  {
    var q :| x - y == Multiple(q);
    assert WORD_LIMIT - x - -y == Multiple(1 - q);
  }

  function Append(es: Exprs, e: Expr): Exprs {
    if es.NoArgs? then Arg(e, NoArgs) else Arg(es.head, Append(es.tail, e))
  }

  /** The last argument is evaluated last and comes last. */
  lemma {:induction false} ArgumentsInOrder(sys: Sys, es: Exprs, e: Expr, m: Store)
    ensures var first, all := EvalAll(sys, es, m), EvalAll(sys, Append(es, e), m);
            if first.Faults? then all.Faults?
            else
              var last := Eval(sys, e, first.store);
              if last.Fault? then all.Faults?
              else all == Values(first.ws + [last.w], last.store)
    decreases es
  {
    hide Eval;
    if es.NoArgs? {
      assert EvalAll(sys, NoArgs, m) == Values([], m);
    } else {
      var x := Eval(sys, es.head, m);
      if x.Value? {
        ArgumentsInOrder(sys, es.tail, e, x.store);
        var first := EvalAll(sys, es.tail, x.store);
        if first.Values? {
          var last := Eval(sys, e, first.store);
          if last.Value? { assert ([x.w] + first.ws) + [last.w] == [x.w] + (first.ws + [last.w]); }
        }
      }
    }
  }
}
