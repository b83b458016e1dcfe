/** What the operators on words and the store of words compute, said without the functions that
    compute it. */
module FinshOperators {
  import opened Basics
  import opened FinshWords

  // ----- arithmetic -----

  lemma ScaleLe(p: nat, a: int, b: int)
    requires a <= b
    ensures p * a <= p * b
  {
    assert p * b - p * a == p * (b - a);
  }

  lemma OneQuotient(d: nat, q: int, r: int, q': int, r': int)
    requires 0 <= r < d && 0 <= r' < d && d * q + r == d * q' + r'
    ensures q == q' && r == r'
  {
    if q < q' { ScaleLe(d, q + 1, q'); }
    if q' < q { ScaleLe(d, q' + 1, q); }
  }

  lemma QuotientIs(w: int, d: nat, q: int, r: int)
    requires 0 <= r < d && w == d * q + r
    ensures w / d == q && w % d == r
  {
    OneQuotient(d, q, r, w / d, w % d);
  }

  lemma QuotientOf(w: int, d: nat) returns (q: int, r: int)
    requires d > 0
    ensures q == w / d && r == w % d && w == d * q + r && 0 <= r < d
  {
    q, r := w / d, w % d;
  }

  lemma QuotientTwice(w: nat, a: nat, b: nat)
    requires a > 0 && b > 0
    ensures a * b > 0 && w / (a * b) == w / a / b
  {
    var q, r := QuotientOf(w, a);
    var q2, r2 := QuotientOf(q, b);
    Nested(w, a, b, q, r, q2, r2);
    QuotientIs(w, a * b, q2, a * r2 + r);
  }

  lemma Nested(w: int, a: nat, b: nat, q: int, r: int, q2: int, r2: int)
    requires w == a * q + r && q == b * q2 + r2 && 0 <= r < a && 0 <= r2 < b
    ensures w == a * b * q2 + (a * r2 + r) && 0 <= a * r2 + r < a * b
  {
    ScaleLe(a, 0, r2);
    ScaleLe(a, r2 + 1, b);
    assert a * (b * q2 + r2) == a * b * q2 + a * r2;
  }

  lemma Doubling(a: nat, b: nat)
    ensures 2 * (a * b) == (2 * a) * b
  {
  }

  lemma {:induction false} PowerAdds(m: nat, n: nat)
    ensures Pow2(m + n) == Pow2(m) * Pow2(n)
    decreases m
  {
    if m > 0 {
      PowerAdds(m - 1, n);
      Doubling(Pow2(m - 1), Pow2(n));
    }
  }

  lemma Powers()
    ensures Pow2(8) == 0x100 && Pow2(16) == 0x1_0000 && Pow2(24) == 0x100_0000 && Pow2(32) == WORD_LIMIT
  {
    assert Pow2(8) == 0x100;
    PowerAdds(8, 8);
    PowerAdds(8, 16);
    PowerAdds(8, 24);
  }

  // ----- bit by bit -----

  /** Bit `k` of a word. */
  function BitAt(w: nat, k: nat): (b: int)
    ensures b == 0 || b == 1
  {
    w / Pow2(k) % 2
  }

  lemma BitAbove(w: nat, k: nat)
    requires k > 0
    ensures BitAt(w, k) == BitAt(w / 2, k - 1)
  {
    QuotientTwice(w, 2, Pow2(k - 1));
  }

  lemma LowBit(w: nat)
    ensures BitAt(w, 0) == w % 2
  {
    assert Pow2(0) == 1;
  }

  lemma {:induction false} BitwiseBits(op: BinOp, x: nat, y: nat, n: nat, k: nat)
    requires k < n
    ensures BitAt(Bitwise(op, x, y, n), k) == BitOf(op, BitAt(x, k), BitAt(y, k))
    decreases n
  {
    hide BitAt;
    var r, rest := Bitwise(op, x, y, n), Bitwise(op, x / 2, y / 2, n - 1);
    QuotientIs(r, 2, rest, BitOf(op, x % 2, y % 2));
    if k > 0 {
      BitAbove(r, k);
      BitAbove(x, k);
      BitAbove(y, k);
      BitwiseBits(op, x / 2, y / 2, n - 1, k - 1);
    } else {
      LowBit(r);
      LowBit(x);
      LowBit(y);
    }
  }

  /** `&` sets a bit that both operands have, `|` one that either has, and `^` one that just one
      of them has. */
  lemma BitwiseMeans(x: word, y: word, k: nat)
    requires k < 32
    ensures Apply(And, x, y).Some? && Apply(Or, x, y).Some? && Apply(Xor, x, y).Some?
    ensures BitAt(Apply(And, x, y).value, k) == 1 <==> BitAt(x, k) == 1 && BitAt(y, k) == 1
    ensures BitAt(Apply(Or, x, y).value, k) == 1 <==> BitAt(x, k) == 1 || BitAt(y, k) == 1
    ensures BitAt(Apply(Xor, x, y).value, k) == 1 <==> BitAt(x, k) != BitAt(y, k)
  {
    hide BitAt, Bitwise, Pow2;
    Powers();
    BitwiseBits(And, x, y, 32, k);
    BitwiseBits(Or, x, y, 32, k);
    BitwiseBits(Xor, x, y, 32, k);
  }

  /** Complement inverts every bit. */
  lemma ComplementMeans(w: word, k: nat)
    requires k < 32
    ensures BitAt(Complement(w), k) == 1 <==> BitAt(w, k) == 0
  {
    hide Pow2, Complement;
    Powers();
    PowerAdds(k, 32 - k);
    Doubled(31 - k);
    Inverted(w, Pow2(k), 2 * Pow2(31 - k));
    Flipped(Pow2(31 - k), w / Pow2(k));
  }

  lemma Doubled(n: nat)
    ensures Pow2(n + 1) == 2 * Pow2(n)
  {
  }

  lemma Inverted(w: word, p: nat, q: nat)
    requires p > 0 && p * q == WORD_LIMIT
    ensures Complement(w) / p == q - 1 - w / p
  {
    var a, b := QuotientOf(w, p);
    assert p * (q - 1 - a) == p * q - p - p * a;
    QuotientIs(Complement(w), p, q - 1 - a, p - 1 - b);
  }

  lemma Flipped(q: int, a: int)
    ensures (2 * q - 1 - a) % 2 == 1 - a % 2
  {
  }

  // ----- modulo 2^32 -----

  /** Two integers that a word cannot tell apart. */
  ghost predicate Congruent(x: int, y: int) {
    exists q: int :: x - y == Multiple(q)
  }

  function Multiple(q: int): int {
    WORD_LIMIT * q
  }

  lemma WrapCongruent(x: int)
    ensures Congruent(Wrap(x), x) && Congruent(Signed(Wrap(x)), x)
  {
    var q := x / WORD_LIMIT;
    assert Wrap(x) - x == Multiple(-q);
    assert Wrap(x) - WORD_LIMIT - x == Multiple(-q - 1);
  }

  lemma SignedCongruent(x: word)
    ensures Congruent(x, Signed(x))
  {
    assert x - x == Multiple(0);
    assert x - (x - WORD_LIMIT) == Multiple(1);
  }

  lemma CongruentTrans(a: int, b: int, c: int)
    requires Congruent(a, b) && Congruent(b, c)
    ensures Congruent(a, c)
  {
    var p :| a - b == Multiple(p);
    var q :| b - c == Multiple(q);
    assert a - c == Multiple(p + q);
  }

  lemma CongruentAlso(a: int, b: int, x: int, y: int)
    requires Congruent(a, x) && Congruent(b, y)
    ensures Congruent(a + b, x + y) && Congruent(a - b, x - y) && Congruent(a * b, x * y)
  {
    var p :| a - x == Multiple(p);
    var q :| b - y == Multiple(q);
    assert (a + b) - (x + y) == Multiple(p + q);
    assert (a - b) - (x - y) == Multiple(p - q);
    Product(a, b, x, y, p, q);
  }

  lemma Product(a: int, b: int, x: int, y: int, p: int, q: int)
    requires a - x == Multiple(p) && b - y == Multiple(q)
    ensures Congruent(a * b, x * y)
  {
    assert a * b - x * y == a * (b - y) + (a - x) * y;
    assert a * (b - y) == WORD_LIMIT * (a * q) && (a - x) * y == WORD_LIMIT * (p * y);
    assert a * b - x * y == Multiple(a * q + p * y);
  }

  lemma Agrees(x: int, y: int)
    requires Congruent(x, y)
    ensures Congruent(Wrap(x), x) && Congruent(Signed(Wrap(x)), y)
  {
    WrapCongruent(x);
    CongruentTrans(Signed(Wrap(x)), x, y);
  }

  /** Sum, difference and product are right modulo 2^32, whether the operands and the result are
      read as signed numbers or not. */
  lemma RingMeans(x: word, y: word)
    ensures Apply(Add, x, y).Some? && Apply(Sub, x, y).Some? && Apply(Mul, x, y).Some?
    ensures var r := Apply(Add, x, y).value; Congruent(r, x + y) && Congruent(Signed(r), Signed(x) + Signed(y))
    ensures var r := Apply(Sub, x, y).value; Congruent(r, x - y) && Congruent(Signed(r), Signed(x) - Signed(y))
    ensures var r := Apply(Mul, x, y).value; Congruent(r, x * y) && Congruent(Signed(r), Signed(x) * Signed(y))
  {
    SignedCongruent(x);
    SignedCongruent(y);
    hide Signed, Wrap, Congruent;
    CongruentAlso(x, y, Signed(x), Signed(y));
    Agrees(x + y, Signed(x) + Signed(y));
    Agrees(x - y, Signed(x) - Signed(y));
    Agrees(x * y, Signed(x) * Signed(y));
  }

  // ----- signed division and shifts -----

  lemma SignedWrap(v: int)
    requires -0x8000_0000 <= v < 0x8000_0000
    ensures Signed(Wrap(v)) == v
  {
  }

  /** `r` is what is left of `a` after taking `b` as often as it goes: smaller than `b` and with
      the sign of `a`. */
  predicate Remains(a: int, b: int, r: int) {
    && (if b < 0 then b < r < -b else -b < r < b)
    && (r == 0 || (r > 0 <==> a > 0))
  }

  /** Division truncates toward zero and the remainder takes the dividend's sign; only the most
      negative number has no quotient by -1, and there it wraps. */
  lemma DivisionMeans(x: word, y: word)
    ensures Apply(Div, x, y).None? <==> y == 0
    ensures Apply(Mod, x, y).None? <==> y == 0
    ensures y != 0 ==>
              var a, b := Signed(x), Signed(y);
              var q, r := Signed(Apply(Div, x, y).value), Signed(Apply(Mod, x, y).value);
              && Remains(a, b, r) && (a == -0x8000_0000 && b == -1 ==> q == a)
              && (!(a == -0x8000_0000 && b == -1) ==> a == b * q + r)
  {
    if y != 0 {
      var a, b := Signed(x), Signed(y);
      var q := TruncDiv(a, b);
      TruncMeans(a, b);
      TruncFits(a, b);
      hide TruncDiv, Wrap;
      SignedWrap(a - b * q);
      if a == -0x8000_0000 && b == -1 {
        assert Wrap(q) == 0x8000_0000 by { TopWraps(q); }
      } else {
        SignedWrap(q);
      }
    }
  }

  lemma TopWraps(q: int)
    requires q == 0x8000_0000
    ensures Wrap(q) == 0x8000_0000
  {
  }

  lemma TruncMeans(a: int, b: int)
    requires b != 0
    ensures Remains(a, b, a - b * TruncDiv(a, b))
  {
    var p, r := TruncOf(a, b);
    hide TruncDiv;
    WithSign(b, p, TruncDiv(a, b), a >= 0);
    RemainsOf(a, b, b * p, r);
  }

  lemma WithSign(b: int, p: int, q: int, plus: bool)
    requires q == if plus then p else -p
    ensures b * q == if plus then b * p else -(b * p)
  {
    if !plus { Opposite(b, p); }
  }

  lemma RemainsOf(a: int, b: int, taken: int, r: int)
    requires (if a >= 0 then a else -a) == taken + r && 0 <= r && (r < b || r < -b)
    requires a == 0 ==> r == 0
    ensures Remains(a, b, a - (if a >= 0 then taken else -taken))
  {
  }

  lemma TruncOf(a: int, b: int) returns (p: int, r: int)
    requires b != 0
    ensures TruncDiv(a, b) == if a >= 0 then p else -p
    ensures (if a >= 0 then a else -a) == b * p + r && 0 <= r && (r < b || r < -b)
    ensures a == 0 ==> r == 0
  {
    p, r := EuclidOf(if a >= 0 then a else -a, b);
  }

  lemma Opposite(b: int, p: int)
    ensures b * -p == -(b * p)
  {
  }

  lemma TruncFits(a: int, b: int)
    requires b != 0 && -0x8000_0000 <= a < 0x8000_0000
    ensures var q := TruncDiv(a, b);
            if a == -0x8000_0000 && b == -1 then q == 0x8000_0000 else -0x8000_0000 <= q < 0x8000_0000
  {
    var n := if a >= 0 then a else -a;
    var p, r := EuclidOf(n, b);
    if b > 0 { Smaller(n, b, p, r); } else { Smaller(n, -b, -p, r); }
  }

  lemma EuclidOf(n: int, b: int) returns (p: int, r: int)
    requires b != 0
    ensures p == n / b && n == b * p + r && 0 <= r && (r < b || r < -b)
    ensures b < 0 ==> n == -b * -p + r
    ensures n == 0 ==> r == 0
  {
    p, r := n / b, n % b;
  }

  lemma Smaller(n: int, d: int, p: int, r: int)
    requires n >= 0 && d > 0 && n == d * p + r && 0 <= r < d
    ensures 0 <= p <= n && (d > 1 ==> 2 * p <= n)
  {
    if p < 0 { ScaleLe(d, p, -1); }
    ScaleLe(p, 1, d);
    if d > 1 { ScaleLe(p, 2, d); }
  }

  /** A left shift by y multiplies by 2^y modulo 2^32; a right shift is the signed quotient by
      2^y, rounded down. */
  lemma ShiftMeans(x: word, y: word)
    ensures Apply(Shl, x, y).None? <==> y >= 32
    ensures Apply(Shr, x, y).None? <==> y >= 32
    ensures y < 32 ==> Congruent(Apply(Shl, x, y).value, x * Pow2(y))
    ensures y < 32 ==>
              var r := Signed(Apply(Shr, x, y).value);
              Pow2(y) * r <= Signed(x) < Pow2(y) * (r + 1)
  {
    hide Congruent, Wrap, Pow2;
    if y < 32 {
      var p, v := Pow2(y), Signed(x);
      WrapCongruent(x * p);
      Floor(v, p);
      SignedWrap(v / p);
    }
  }

  lemma Floor(v: int, p: nat)
    requires p > 0 && -0x8000_0000 <= v < 0x8000_0000
    ensures -0x8000_0000 <= v / p < 0x8000_0000 && p * (v / p) <= v < p * (v / p + 1)
  {
    var q, r := QuotientOf(v, p);
    if q >= 0x8000_0000 { ScaleLe(p, 0x8000_0000, q); }
    if q < -0x8000_0000 { ScaleLe(p, q + 1, -0x8000_0000); }
  }

  // ----- words in the store -----

  /** Words are stored low byte first. */
  lemma LittleEndian(w: word, k: nat)
    requires k < 4
    ensures Bytes32(w)[k] == w / Pow2(8 * k) % 0x100
  {
    hide Pow2;
    Powers();
    OneIsPow();
  }

  lemma OneIsPow()
    ensures Pow2(0) == 1
  {
  }

  /** Saving a word changes the four bytes at its address and no other one. */
  lemma SaveElsewhere(m: Store, a: word, w: word, b: word)
    ensures Save(m, a, w).None? <==> !Mapped(m, a)
    ensures Mapped(m, a) ==>
              var m' := Save(m, a, w).value;
              && m'.Keys == m.Keys
              && (a <= b < a + 4 ==> b in m' && m'[b] == w / Pow2(8 * (b - a)) % 0x100)
              && (!(a <= b < a + 4) && b in m ==> m'[b] == m[b])
  {
    hide Bytes32, Pow2;
    if a <= b < a + 4 { LittleEndian(w, b - a); }
  }
}
