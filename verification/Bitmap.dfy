/** Words as sets of bit numbers, and the kernel's table-driven search for the lowest one. */
module Bitmap {
  type Word = bv32

  function Mask(p: nat): Word {
    if p == 0 then 1 else Mask(p - 1) << 1
  }

  /** The bit operations of the code, on whole words. */
  function And(v: Word, m: Word): Word {
    v & m
  }

  function Or(v: Word, m: Word): Word {
    v | m
  }

  function AndNot(v: Word, m: Word): Word {
    v & !m
  }

  predicate Bit(v: Word, p: nat) {
    And(v, Mask(p)) != 0
  }

  function Put(v: Word, p: nat): Word {
    Or(v, Mask(p))
  }

  function Drop(v: Word, p: nat): Word {
    AndNot(v, Mask(p))
  }

  // ----- masks -----

  lemma MaskValues()
    ensures Mask(0) == 1 && Mask(1) == 2 && Mask(2) == 4 && Mask(3) == 8
    ensures Mask(4) == 0x10 && Mask(5) == 0x20 && Mask(6) == 0x40 && Mask(7) == 0x80
    ensures Mask(8) == 0x100 && Mask(9) == 0x200 && Mask(10) == 0x400 && Mask(11) == 0x800
    ensures Mask(12) == 0x1000 && Mask(13) == 0x2000 && Mask(14) == 0x4000 && Mask(15) == 0x8000
    ensures Mask(16) == 0x1_0000 && Mask(17) == 0x2_0000 && Mask(18) == 0x4_0000 && Mask(19) == 0x8_0000
    ensures Mask(20) == 0x10_0000 && Mask(21) == 0x20_0000 && Mask(22) == 0x40_0000 && Mask(23) == 0x80_0000
    ensures Mask(24) == 0x100_0000 && Mask(25) == 0x200_0000 && Mask(26) == 0x400_0000 && Mask(27) == 0x800_0000
    ensures Mask(28) == 0x1000_0000 && Mask(29) == 0x2000_0000 && Mask(30) == 0x4000_0000 && Mask(31) == 0x8000_0000
  {
    assert Mask(2) == 4;
    assert Mask(4) == 0x10;
    assert Mask(6) == 0x40;
    assert Mask(8) == 0x100;
    assert Mask(10) == 0x400;
    assert Mask(12) == 0x1000;
    assert Mask(14) == 0x4000;
    assert Mask(16) == 0x1_0000;
    assert Mask(18) == 0x4_0000;
    assert Mask(20) == 0x10_0000;
    assert Mask(22) == 0x40_0000;
    assert Mask(24) == 0x100_0000;
    assert Mask(26) == 0x400_0000;
    assert Mask(28) == 0x1000_0000;
    assert Mask(30) == 0x4000_0000;
  }

  predicate Separate(m: Word, n: Word) {
    m & n == 0
  }

  /** What the kernel writes as 1 shifted left by the number. */
  lemma MaskIsShift(p: nat)
    requires p < 32
    ensures (1 as Word) << p == Mask(p)
  {
    MaskValues();
    hide Mask;
  }

  lemma {:induction false} MasksDisjoint(p: nat, q: nat)
    requires p != q
    ensures Mask(p) & Mask(q) == 0
    decreases p + q
  {
    if p == 0 {
    } else if q == 0 {
    } else {
      MasksDisjoint(p - 1, q - 1);
    }
  }

  lemma MasksApart(p: nat, q: nat)
    requires p != q
    ensures Separate(Mask(p), Mask(q))
  {
    hide Mask;
    MasksDisjoint(p, q);
  }

  lemma OrElsewhere(v: Word, m: Word, n: Word)
    requires Separate(m, n)
    ensures And(Or(v, m), n) == And(v, n)
  {
  }

  lemma AndNotElsewhere(v: Word, m: Word, n: Word)
    requires Separate(m, n)
    ensures And(AndNot(v, m), n) == And(v, n)
  {
  }

  lemma SameBits(v: Word, m: Word)
    requires m != 0
    ensures And(Or(v, m), m) != 0 && And(AndNot(v, m), m) == 0
  {
  }

  /** Setting or clearing bit `p` is felt at bit `p` only. */
  lemma PutDrop(v: Word, p: nat, q: nat)
    requires p < 32
    ensures Bit(Put(v, p), q) <==> Bit(v, q) || q == p
    ensures Bit(Drop(v, p), q) <==> Bit(v, q) && q != p
  {
    hide Mask, And, Or, AndNot, Separate;
    MaskIsNotZero(p);
    if p == q {
      SameBits(v, Mask(p));
    } else {
      MasksApart(p, q);
      OrElsewhere(v, Mask(p), Mask(q));
      AndNotElsewhere(v, Mask(p), Mask(q));
    }
  }

  lemma MaskIsNotZero(p: nat)
    requires p < 32
    ensures Mask(p) != 0
  {
    hide Mask;
    MaskValues();
  }

  // ----- the lowest bit -----

  /** All bits below `i`. */
  function Below(i: nat): Word {
    if i == 0 then 0 else (Below(i - 1) << 1) | 1
  }

  predicate LowestAt(v: Word, i: nat) {
    And(v, Below(i)) == 0 && And(v, Mask(i)) != 0
  }

  lemma BelowValues()
    ensures Below(0) == 0x0 && Below(1) == 0x1 && Below(2) == 0x3 && Below(3) == 0x7
    ensures Below(4) == 0xf && Below(5) == 0x1f && Below(6) == 0x3f && Below(7) == 0x7f
    ensures Below(8) == 0xff && Below(9) == 0x1ff && Below(10) == 0x3ff && Below(11) == 0x7ff
    ensures Below(12) == 0xfff && Below(13) == 0x1fff && Below(14) == 0x3fff && Below(15) == 0x7fff
    ensures Below(16) == 0xffff && Below(17) == 0x1ffff && Below(18) == 0x3ffff && Below(19) == 0x7ffff
    ensures Below(20) == 0xfffff && Below(21) == 0x1fffff && Below(22) == 0x3fffff && Below(23) == 0x7fffff
    ensures Below(24) == 0xffffff && Below(25) == 0x1ffffff && Below(26) == 0x3ffffff && Below(27) == 0x7ffffff
    ensures Below(28) == 0xfffffff && Below(29) == 0x1fffffff && Below(30) == 0x3fffffff && Below(31) == 0x7fffffff
  {
    assert Below(2) == 0x3;
    assert Below(4) == 0xf;
    assert Below(6) == 0x3f;
    assert Below(8) == 0xff;
    assert Below(10) == 0x3ff;
    assert Below(12) == 0xfff;
    assert Below(14) == 0x3fff;
    assert Below(16) == 0xffff;
    assert Below(18) == 0x3ffff;
    assert Below(20) == 0xfffff;
    assert Below(22) == 0x3fffff;
    assert Below(24) == 0xffffff;
    assert Below(26) == 0x3ffffff;
    assert Below(28) == 0xfffffff;
    assert Below(30) == 0x3fffffff;
  }

  lemma {:induction false} MaskIsBelow(j: nat, i: nat)
    requires j < i
    ensures Mask(j) & Below(i) == Mask(j)
    decreases j
  {
    if j == 0 {
    } else {
      MaskIsBelow(j - 1, i - 1);
    }
  }

  lemma NothingBelow(v: Word, b: Word, m: Word)
    requires And(v, b) == 0 && m & b == m
    ensures And(v, m) == 0
  {
  }

  lemma LowestIsLowest(v: Word, i: nat)
    requires LowestAt(v, i)
    ensures Bit(v, i) && forall j: nat {:trigger Bit(v, j)} :: j < i ==> !Bit(v, j)
  {
    hide Mask, Below, And;
    forall j: nat {:trigger Bit(v, j)} | j < i ensures !Bit(v, j) {
      MaskIsBelow(j, i);
      NothingBelow(v, Below(i), Mask(j));
    }
  }

  /** A row of __lowest_bit_bitmap past its first entry; all sixteen rows agree there. */
  function Column(n: Word): nat {
    if n == 0 then 0 else if n == 1 then 0 else if n == 2 then 1 else if n == 3 then 0
    else if n == 4 then 2 else if n == 5 then 0 else if n == 6 then 1 else if n == 7 then 0
    else if n == 8 then 3 else if n == 9 then 0 else if n == 10 then 1 else if n == 11 then 0
    else if n == 12 then 2 else if n == 13 then 0 else if n == 14 then 1 else 0
  }

  /** The first entries of the sixteen rows. */
  function FirstColumn(n: Word): nat {
    if n == 0 then 0 else if n == 1 then 4 else if n == 2 then 5 else if n == 3 then 4
    else if n == 4 then 6 else if n == 5 then 4 else if n == 6 then 5 else if n == 7 then 4
    else if n == 8 then 7 else if n == 9 then 4 else if n == 10 then 5 else if n == 11 then 4
    else if n == 12 then 6 else if n == 13 then 4 else if n == 14 then 5 else 4
  }

  function LowestBitBitmap(b: Word): nat {
    if b & 0xf == 0 then FirstColumn(b >> 4) else Column(b & 0xf)
  }

  /** __rt_ffs: bits are numbered from 1, and 0 means there is none. */
  function Ffs(value: Word): nat {
    if value == 0 then 0
    else if value & 0xff != 0 then LowestBitBitmap(value & 0xff) + 1
    else if value & 0xff00 != 0 then LowestBitBitmap((value & 0xff00) >> 8) + 9
    else if value & 0xff_0000 != 0 then LowestBitBitmap((value & 0xff_0000) >> 16) + 17
    else LowestBitBitmap((value & 0xff00_0000) >> 24) + 25
  }

  predicate ByteLowest(b: Word, i: nat) {
    || (i == 0 && b & 1 != 0)
    || (i == 1 && b & 3 == 2)
    || (i == 2 && b & 7 == 4)
    || (i == 3 && b & 0xf == 8)
    || (i == 4 && b & 0x1f == 0x10)
    || (i == 5 && b & 0x3f == 0x20)
    || (i == 6 && b & 0x7f == 0x40)
    || (i == 7 && b & 0xff == 0x80)
  }

  lemma TableIsRight(b: Word)
    requires 0 < b < 0x100
    ensures ByteLowest(b, LowestBitBitmap(b))
  {
  }

  lemma ByteOf(v: Word, b: Word, i: nat)
    requires b == v & 0xff && b != 0
    ensures 0 < b < 0x100
    ensures ByteLowest(b, i) ==> i < 8 && LowestAt(v, i)
  {
    hide Mask, Below;
    MaskValues();
    BelowValues();
  }

  lemma SecondByteOf(v: Word, b: Word, i: nat)
    requires v & 0xff == 0 && b == (v & 0xff00) >> 8 && b != 0
    ensures 0 < b < 0x100
    ensures ByteLowest(b, i) ==> i < 8 && LowestAt(v, i + 8)
  {
    hide Mask, Below;
    MaskValues();
    BelowValues();
  }

  lemma ThirdByteOf(v: Word, b: Word, i: nat)
    requires v & 0xffff == 0 && b == (v & 0xff_0000) >> 16 && b != 0
    ensures 0 < b < 0x100
    ensures ByteLowest(b, i) ==> i < 8 && LowestAt(v, i + 16)
  {
    hide Mask, Below;
    MaskValues();
    BelowValues();
  }

  lemma FourthByteOf(v: Word, b: Word, i: nat)
    requires v & 0xff_ffff == 0 && b == (v & 0xff00_0000) >> 24 && b != 0
    ensures 0 < b < 0x100
    ensures ByteLowest(b, i) ==> i < 8 && LowestAt(v, i + 24)
  {
    hide Mask, Below;
    MaskValues();
    BelowValues();
  }

  /** For every word but 0, __rt_ffs is one more than the number of its lowest set bit. */
  lemma FfsIsLowest(v: Word)
    requires v != 0
    ensures 1 <= Ffs(v) <= 32 && LowestAt(v, Ffs(v) - 1)
  {
    hide LowestBitBitmap, ByteLowest, LowestAt;
    if v & 0xff != 0 {
      var b := v & 0xff;
      ByteOf(v, b, LowestBitBitmap(b));
      TableIsRight(b);
    } else if v & 0xff00 != 0 {
      var b := (v & 0xff00) >> 8;
      SecondByteOf(v, b, LowestBitBitmap(b));
      TableIsRight(b);
    } else if v & 0xff_0000 != 0 {
      var b := (v & 0xff_0000) >> 16;
      ThirdByteOf(v, b, LowestBitBitmap(b));
      TableIsRight(b);
    } else {
      var b := (v & 0xff00_0000) >> 24;
      FourthByteOf(v, b, LowestBitBitmap(b));
      TableIsRight(b);
    }
  }

  /** A word is 0 exactly when none of its bits is set. */
  lemma ZeroHasNoBits(v: Word)
    ensures v == 0 <==> forall p: nat {:trigger Bit(v, p)} :: p < 32 ==> !Bit(v, p)
  {
    hide Mask;
    if v != 0 {
      FfsIsLowest(v);
      LowestIsLowest(v, Ffs(v) - 1);
    }
  }

  // ----- the two forms of the ready table -----

  /** The first priority whose list is not empty, and no earlier one. */
  ghost predicate IsLeast(some: nat -> bool, p: nat) {
    some(p) && forall q: nat {:trigger some(q)} :: q < p ==> !some(q)
  }

  /** At most 32 priorities: bit `p` of the group is set iff some thread of priority `p` is ready. */
  ghost predicate GroupMarks(group: Word, some: nat -> bool) {
    forall p: nat {:trigger some(p)} {:trigger Bit(group, p)} :: p < 32 ==> (Bit(group, p) <==> some(p))
  }

  /** Up to 256: bit `k` of table entry `n` stands for priority `8n + k`, and bit `n` of the
      group for the whole entry. */
  ghost predicate TableMarks(group: Word, table: seq<Word>, some: nat -> bool) {
    && |table| == 32
    && (forall n: nat {:trigger table[n]} {:trigger Bit(group, n)} :: n < 32 ==> (Bit(group, n) <==> table[n] != 0))
    && (forall n: nat, k: nat {:trigger Bit(table[n], k)} :: n < 32 && k < 32 ==>
         (Bit(table[n], k) <==> k < 8 && some(8 * n + k)))
  }

  /** The computation in rt_schedule, in both forms. */
  function HighestReady(wide: bool, group: Word, table: seq<Word>): nat {
    if wide then
      var number := Ffs(group) as int - 1;
      if 0 <= number < |table| && Ffs(table[number]) >= 1 then number * 8 + Ffs(table[number]) - 1 else 0
    else if Ffs(group) >= 1 then Ffs(group) - 1 else 0
  }

  lemma GroupIsLeast(group: Word, some: nat -> bool, p: nat)
    requires GroupMarks(group, some) && p < 32 && some(p)
    ensures HighestReady(false, group, []) < 32 && IsLeast(some, HighestReady(false, group, []))
  {
    hide Ffs, Bit, LowestAt;
    assert Bit(group, p);
    ZeroHasNoBits(group);
    FfsIsLowest(group);
    LowestIsLowest(group, Ffs(group) - 1);
    forall q: nat {:trigger some(q)} | q < Ffs(group) - 1 ensures !some(q) { assert !Bit(group, q); }
  }

  lemma TableHas(group: Word, table: seq<Word>, some: nat -> bool, q: nat)
    requires TableMarks(group, table, some) && q < 256 && some(q)
    ensures |table| == 32 && q / 8 < 32 && q % 8 < 8 && q == 8 * (q / 8) + q % 8
    ensures Bit(table[q / 8], q % 8) && table[q / 8] != 0 && Bit(group, q / 8) && group != 0
  {
    hide Bit;
    assert q == 8 * (q / 8) + q % 8;
    assert Bit(table[q / 8], q % 8);
    ZeroHasNoBits(table[q / 8]);
    ZeroHasNoBits(group);
  }

  lemma TableIsLeast(group: Word, table: seq<Word>, some: nat -> bool, p: nat)
    requires TableMarks(group, table, some) && p < 256 && some(p)
    ensures var h := HighestReady(true, group, table); h < 256 && IsLeast(some, h)
  {
    hide Ffs, Bit, LowestAt;
    TableHas(group, table, some, p);
    FfsIsLowest(group);
    var n := Ffs(group) - 1;
    LowestIsLowest(group, n);
    FfsIsLowest(table[n]);
    var k := Ffs(table[n]) - 1;
    LowestIsLowest(table[n], k);
    EntryIsLeast(group, table, some, n, k);
  }

  lemma EntryIsLeast(group: Word, table: seq<Word>, some: nat -> bool, n: nat, k: nat)
    requires TableMarks(group, table, some) && n < 32 && k < 32
    requires Bit(table[n], k) && forall j: nat {:trigger Bit(table[n], j)} :: j < k ==> !Bit(table[n], j)
    requires forall j: nat {:trigger Bit(group, j)} :: j < n ==> !Bit(group, j)
    ensures k < 8 && IsLeast(some, 8 * n + k)
  {
    hide Bit;
    forall q: nat {:trigger some(q)} | q < 8 * n + k ensures !some(q) {
      if some(q) { TableHas(group, table, some, q); }
    }
  }
}
