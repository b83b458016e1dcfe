/** Machine words, bytes and the byte-addressed store that the finsh shell computes over.

    A `long` of the target is 32 bits wide and little-endian, so every stack slot, every
    constant and every address is a `word`; arithmetic wraps at 2^32 and the signed
    operators look at a word through `Signed`. */
module FinshWords {
  import opened Basics

  type word = w: int | 0 <= w < 0x1_0000_0000

  /** The memory the shell may touch, byte by byte. The VM's own stack and text segment
      are not part of it; an access outside the domain is a fault. */
  type Store = map<word, byte>

  // ----- words -----

  function Wrap(x: int): word {
    x % WORD_LIMIT
  }

  function Signed(w: word): int {
    if w < 0x8000_0000 then w else w - WORD_LIMIT
  }

  /** Four bytes, least significant first: what FINSH_SET32 writes. */
  function Bytes32(w: word): (bs: seq<byte>)
    ensures |bs| == 4
  {
    [w % 0x100, w / 0x100 % 0x100, w / 0x1_0000 % 0x100, w / 0x100_0000]
  }

  /** What FINSH_GET32 reads back. */
  function Word32(b0: byte, b1: byte, b2: byte, b3: byte): word {
    b0 + 0x100 * b1 + 0x1_0000 * b2 + 0x100_0000 * b3
  }

  lemma WordRoundTrip(w: word)
    ensures var bs := Bytes32(w); Word32(bs[0], bs[1], bs[2], bs[3]) == w
  {
    var lo, hi := w % 0x1_0000, w / 0x1_0000;
    assert w / 0x100 == lo / 0x100 + 0x100 * hi;
    assert w / 0x100 % 0x100 == lo / 0x100;
    assert w / 0x100_0000 == hi / 0x100;
  }

  // ----- operators -----

  datatype BinOp = Add | Sub | Mul | Div | Mod | And | Or | Xor | Shl | Shr

  function Pow2(n: nat): (p: nat)
    ensures p > 0
  {
    if n == 0 then 1 else 2 * Pow2(n - 1)
  }

  /** C division: the quotient is truncated toward zero. */
  function TruncDiv(x: int, y: int): int
    requires y != 0
  {
    if x >= 0 then x / y else -((-x) / y)
  }

  function BitOf(op: BinOp, x: int, y: int): int {
    match op
    case And => if x == 1 && y == 1 then 1 else 0
    case Or => if x == 1 || y == 1 then 1 else 0
    case _ => if x != y then 1 else 0
  }

  /** `op` applied to the low `n` bits of both operands, bit by bit. */
  function Bitwise(op: BinOp, x: nat, y: nat, n: nat): (r: nat)
    ensures r < Pow2(n)
  {
    if n == 0 then 0
    else BitOf(op, x % 2, y % 2) + 2 * Bitwise(op, x / 2, y / 2, n - 1)
  }

  /** One binary operator on words. Division and remainder by zero, and shifts by 32 or
      more, are undefined in C; both the VM and the evaluator fault on them. */
  function Apply(op: BinOp, x: word, y: word): Option<word> {
    match op
    case Add => Some(Wrap(x + y))
    case Sub => Some(Wrap(x - y))
    case Mul => Some(Wrap(x * y))
    case Div => if y == 0 then None else Some(Wrap(TruncDiv(Signed(x), Signed(y))))
    case Mod =>
      if y == 0 then None
      else Some(Wrap(Signed(x) - Signed(y) * TruncDiv(Signed(x), Signed(y))))
    case And => Some(Wrap(Bitwise(op, x, y, 32)))
    case Or => Some(Wrap(Bitwise(op, x, y, 32)))
    case Xor => Some(Wrap(Bitwise(op, x, y, 32)))
    case Shl => if y >= 32 then None else Some(Wrap(x * Pow2(y)))
    case Shr => if y >= 32 then None else Some(Wrap(Signed(x) / Pow2(y)))
  }

  function Complement(w: word): word {
    WORD_LIMIT - 1 - w
  }

  /** One more or one less. */
  function Bumped(w: word, up: bool): word {
    var step: int := if up then 1 else -1;
    Wrap(w + step)
  }

  // ----- the store -----

  predicate Mapped(m: Store, a: word) {
    a + 3 < WORD_LIMIT && a in m && a + 1 in m && a + 2 in m && a + 3 in m
  }

  function Load(m: Store, a: word): Option<word> {
    if Mapped(m, a) then Some(Word32(m[a], m[a + 1], m[a + 2], m[a + 3])) else None
  }

  function Save(m: Store, a: word, w: word): Option<Store> {
    if Mapped(m, a) then
      var bs := Bytes32(w);
      Some(m[a := bs[0]][a + 1 := bs[1]][a + 2 := bs[2]][a + 3 := bs[3]])
    else None
  }

  /** A saved word is what the next load of the same address finds. */
  lemma SaveThenLoad(m: Store, a: word, w: word)
    requires Mapped(m, a)
    ensures Save(m, a, w).Some? && Load(Save(m, a, w).value, a) == Some(w)
  {
    WordRoundTrip(w);
  }
}
