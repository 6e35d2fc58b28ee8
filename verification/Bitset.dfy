/** The bit sets of src/porcupine/bitset.go: words of 64 bits, updated in place, that represent
    finite sets of naturals. */
module Bitset {

  const WORDSIZE := 64

  /** An unsigned 64-bit word. */
  type Word = w: nat | w < 0x1_0000_0000_0000_0000

  // ---------- Bitwise operators on unsigned numbers ----------

  function Bit(on: bool): nat {
    if on then 1 else 0
  }

  predicate BitAt(w: nat, i: nat)
    decreases i
  {
    if i == 0 then w % 2 == 1 else BitAt(w / 2, i - 1)
  }

  /** `1 << m` */
  function Mask(m: nat): nat {
    if m == 0 then 1 else 2 * Mask(m - 1)
  }

  /** `a | b` */
  function Or(a: nat, b: nat): nat {
    if a == 0 && b == 0 then 0 else 2 * Or(a / 2, b / 2) + Bit(a % 2 == 1 || b % 2 == 1)
  }

  /** `a & b` */
  function And(a: nat, b: nat): nat {
    if a == 0 && b == 0 then 0 else 2 * And(a / 2, b / 2) + Bit(a % 2 == 1 && b % 2 == 1)
  }

  /** `a &^ b` */
  function AndNot(a: nat, b: nat): nat {
    if a == 0 && b == 0 then 0 else 2 * AndNot(a / 2, b / 2) + Bit(a % 2 == 1 && b % 2 != 1)
  }

  /** `a ^ b` */
  function Xor(a: nat, b: nat): nat {
    if a == 0 && b == 0 then 0 else 2 * Xor(a / 2, b / 2) + Bit((a % 2 == 1) != (b % 2 == 1))
  }

  lemma {:induction false} ZeroHasNoBit(i: nat)
    ensures !BitAt(0, i)
  {
    if i > 0 {
      ZeroHasNoBit(i - 1);
    }
  }

  lemma {:induction false} MaskBit(m: nat, i: nat)
    ensures BitAt(Mask(m), i) <==> i == m
  {
    if m == 0 && i > 0 {
      ZeroHasNoBit(i - 1);
    } else if m > 0 && i > 0 {
      MaskBit(m - 1, i - 1);
    }
  }

  /** The operators act bit by bit. */
  lemma {:induction false} OperatorBits(a: nat, b: nat, i: nat)
    ensures BitAt(Or(a, b), i) <==> BitAt(a, i) || BitAt(b, i)
    ensures BitAt(AndNot(a, b), i) <==> BitAt(a, i) && !BitAt(b, i)
    decreases i
  {
    if a == 0 && b == 0 {
      ZeroHasNoBit(i);
    } else if i > 0 {
      OperatorBits(a / 2, b / 2, i - 1);
    }
  }

  /** Testing a word against a mask reads one bit. */
  lemma {:induction false} MaskTests(a: nat, m: nat)
    ensures And(a, Mask(m)) != 0 <==> BitAt(a, m)
    decreases m
  {
    if m == 0 {
      AndZero(a / 2);
    } else {
      MaskTests(a / 2, m - 1);
    }
  }

  lemma {:induction false} AndZero(a: nat)
    ensures And(a, 0) == 0
  {
    if a > 0 {
      AndZero(a / 2);
    }
  }

  /** ... and stay within the width of their operands. */
  lemma {:induction false} OperatorWidth(a: nat, b: nat, k: nat)
    requires a < Mask(k) && b < Mask(k)
    ensures Or(a, b) < Mask(k) && AndNot(a, b) < Mask(k) && Xor(a, b) < Mask(k)
  {
    if k > 0 && (a > 0 || b > 0) {
      OperatorWidth(a / 2, b / 2, k - 1);
    }
  }

  lemma {:induction false} MaskGrows(m: nat, k: nat)
    requires m < k
    ensures 0 < Mask(m) < Mask(k)
  {
    if m + 1 < k {
      MaskGrows(m, k - 1);
    } else if m > 0 {
      MaskGrows(m - 1, k - 1);
    }
  }

  lemma Mask8(m: nat)
    ensures Mask(m + 8) == 0x100 * Mask(m)
  {
    assert Mask(m + 8) == 4 * Mask(m + 6);
    assert Mask(m + 6) == 4 * Mask(m + 4);
    assert Mask(m + 4) == 4 * Mask(m + 2);
  }

  lemma Mask64()
    ensures Mask(WORDSIZE) == 0x1_0000_0000_0000_0000
  {
    Mask8(0);
    Mask8(8);
    Mask8(16);
    Mask8(24);
    Mask8(32);
    Mask8(40);
    Mask8(48);
    Mask8(56);
  }

  /** A number below `2^k` is determined by its `k` low bits. */
  lemma {:induction false} BitsDecide(a: nat, b: nat, k: nat)
    requires a < Mask(k) && b < Mask(k)
    requires forall i: nat | i < k :: BitAt(a, i) == BitAt(b, i)
    ensures a == b
  {
    if k > 0 {
      assert BitAt(a, 0) == BitAt(b, 0);
      forall i: nat | i < k - 1 ensures BitAt(a / 2, i) == BitAt(b / 2, i) {
        assert BitAt(a, i + 1) == BitAt(b, i + 1);
      }
      BitsDecide(a / 2, b / 2, k - 1);
    }
  }

  function Shl1(m: nat): Word
    requires m < WORDSIZE
  {
    MaskGrows(m, WORDSIZE);
    Mask64();
    Mask(m)
  }

  function OrWord(a: Word, b: Word): Word {
    Mask64();
    OperatorWidth(a, b, WORDSIZE);
    Or(a, b)
  }

  function AndNotWord(a: Word, b: Word): Word {
    Mask64();
    OperatorWidth(a, b, WORDSIZE);
    AndNot(a, b)
  }

  function XorWord(a: Word, b: Word): Word {
    Mask64();
    OperatorWidth(a, b, WORDSIZE);
    Xor(a, b)
  }

  // ---------- Sets of positions ----------

  /** Position `pos` is in range and its bit is on. */
  predicate Has(ws: seq<Word>, pos: nat) {
    pos / WORDSIZE < |ws| && BitAt(ws[pos / WORDSIZE], pos % WORDSIZE)
  }

  /** The set a sequence of words stands for. */
  function Bits(ws: seq<Word>): set<nat> {
    set pos: nat | pos < WORDSIZE * |ws| && Has(ws, pos)
  }

  lemma HasInBits(ws: seq<Word>, pos: nat)
    ensures pos in Bits(ws) <==> Has(ws, pos)
  {
  }

  /** Updating one word changes one bit. */
  lemma UpdateBits(ws: seq<Word>, pos: nat, w: Word, on: bool)
    requires pos < WORDSIZE * |ws|
    requires var was, m := ws[pos / WORDSIZE], Shl1(pos % WORDSIZE);
      w == if on then OrWord(was, m) else AndNotWord(was, m)
    ensures Bits(ws[pos / WORDSIZE := w]) == if on then Bits(ws) + {pos} else Bits(ws) - {pos}
  {
    var ws' := ws[pos / WORDSIZE := w];
    forall q: nat ensures q in Bits(ws') <==> q in (if on then Bits(ws) + {pos} else Bits(ws) - {pos}) {
      HasInBits(ws', q);
      HasInBits(ws, q);
      if q / WORDSIZE == pos / WORDSIZE {
        OperatorBits(ws[pos / WORDSIZE], Shl1(pos % WORDSIZE), q % WORDSIZE);
        MaskBit(pos % WORDSIZE, q % WORDSIZE);
      }
    }
  }

  // ---------- Counting ----------

  /** The number of bits below `k` that are on. */
  function Ones(w: Word, k: nat): nat
    requires k <= WORDSIZE
  {
    if k == 0 then 0 else Ones(w, k - 1) + if BitAt(w, k - 1) then 1 else 0
  }

  function Popcount(ws: seq<Word>): nat {
    if |ws| == 0 then 0 else Popcount(ws[..|ws| - 1]) + Ones(ws[|ws| - 1], WORDSIZE)
  }

  /** The positions below `end` whose bit is on. */
  function BitsBelow(ws: seq<Word>, end: nat): set<nat> {
    set pos: nat | pos < end && Has(ws, pos)
  }

  lemma {:induction false} OnesAreBits(ws: seq<Word>, j: nat, k: nat)
    requires j < |ws| && k <= WORDSIZE
    ensures |BitsBelow(ws, WORDSIZE * j + k)| == |BitsBelow(ws, WORDSIZE * j)| + Ones(ws[j], k)
  {
    if k > 0 {
      OnesAreBits(ws, j, k - 1);
      var pos := WORDSIZE * j + k - 1;
      assert pos / WORDSIZE == j && pos % WORDSIZE == k - 1;
      NextBit(ws, pos);
    }
  }

  lemma NextBit(ws: seq<Word>, pos: nat)
    requires pos / WORDSIZE < |ws|
    ensures |BitsBelow(ws, pos + 1)|
         == |BitsBelow(ws, pos)| + if BitAt(ws[pos / WORDSIZE], pos % WORDSIZE) then 1 else 0
  {
    assert BitsBelow(ws, pos + 1) == BitsBelow(ws, pos) + if Has(ws, pos) then {pos} else {};
  }

  lemma {:induction false} PopcountIsSize(ws: seq<Word>, j: nat)
    requires j <= |ws|
    ensures Popcount(ws[..j]) == |BitsBelow(ws, WORDSIZE * j)|
  {
    if j > 0 {
      PopcountIsSize(ws, j - 1);
      OnesAreBits(ws, j - 1, WORDSIZE);
      assert ws[..j][..j - 1] == ws[..j - 1];
    } else {
      assert BitsBelow(ws, 0) == {};
    }
  }

  lemma PopcountIsCardinality(ws: seq<Word>)
    ensures Popcount(ws) == |Bits(ws)|
  {
    PopcountIsSize(ws, |ws|);
    assert ws[..|ws|] == ws;
    assert Bits(ws) == BitsBelow(ws, WORDSIZE * |ws|);
  }

  // ---------- Equality and hashing ----------

  /** Bit sets of equal length represent equal sets exactly when their words are equal. */
  lemma SameBitsSameWords(a: seq<Word>, b: seq<Word>)
    requires |a| == |b|
    ensures Bits(a) == Bits(b) <==> a == b
  {
    if Bits(a) == Bits(b) {
      forall j | 0 <= j < |a| ensures a[j] == b[j] {
        forall i: nat | i < WORDSIZE ensures BitAt(a[j], i) == BitAt(b[j], i) {
          var pos := WORDSIZE * j + i;
          assert pos / WORDSIZE == j && pos % WORDSIZE == i;
          HasInBits(a, pos);
          HasInBits(b, pos);
        }
        Mask64();
        BitsDecide(a[j], b[j], WORDSIZE);
      }
    }
  }

  function XorAll(h: Word, ws: seq<Word>): Word {
    if |ws| == 0 then h else XorWord(XorAll(h, ws[..|ws| - 1]), ws[|ws| - 1])
  }

  function AsWord(n: nat): Word {
    n % 0x1_0000_0000_0000_0000
  }

  function HashOf(ws: seq<Word>): Word {
    XorAll(AsWord(Popcount(ws)), ws)
  }

  // ---------- The operations ----------

  method New(bits: nat) returns (b: array<Word>)
    ensures fresh(b) && b.Length == bits / WORDSIZE + (if bits % WORDSIZE != 0 then 1 else 0)
    ensures bits <= WORDSIZE * b.Length && Bits(b[..]) == {}
  {
    var extra := if bits % WORDSIZE != 0 then 1 else 0;
    b := new Word[bits / WORDSIZE + extra](_ => 0);
    forall pos: nat ensures !Has(b[..], pos) {
      ZeroHasNoBit(pos % WORDSIZE);
    }
  }

  method Clone(b: array<Word>) returns (c: array<Word>)
    ensures fresh(c) && c[..] == b[..]
  {
    c := new Word[b.Length](i requires 0 <= i < b.Length reads b => b[i]);
  }

  method Set(b: array<Word>, pos: nat)
    requires pos < WORDSIZE * b.Length
    modifies b
    ensures Bits(b[..]) == old(Bits(b[..])) + {pos}
  {
    var major, minor := pos / WORDSIZE, pos % WORDSIZE;
    ghost var was := b[..];
    b[major] := OrWord(b[major], Shl1(minor));
    assert b[..] == was[major := b[major]];
    UpdateBits(was, pos, b[major], true);
  }

  method Clear(b: array<Word>, pos: nat)
    requires pos < WORDSIZE * b.Length
    modifies b
    ensures Bits(b[..]) == old(Bits(b[..])) - {pos}
  {
    var major, minor := pos / WORDSIZE, pos % WORDSIZE;
    ghost var was := b[..];
    b[major] := AndNotWord(b[major], Shl1(minor));
    assert b[..] == was[major := b[major]];
    UpdateBits(was, pos, b[major], false);
  }

  method Get(b: array<Word>, pos: nat) returns (on: bool)
    requires pos < WORDSIZE * b.Length
    ensures on <==> pos in Bits(b[..])
  {
    var major, minor := pos / WORDSIZE, pos % WORDSIZE;
    on := And(b[major], Shl1(minor)) != 0;
    MaskTests(b[major], minor);
    HasInBits(b[..], pos);
  }

  method Popcnt(ws: seq<Word>) returns (total: nat)
    ensures total == |Bits(ws)|
  {
    total := 0;
    var i := 0;
    while i < |ws|
      invariant 0 <= i <= |ws| && total == Popcount(ws[..i])
    {
      var ones := OnesCount64(ws[i]);
      assert ws[..i + 1][..i] == ws[..i];
      total := total + ones;
      i := i + 1;
    }
    assert ws[..|ws|] == ws;
    PopcountIsCardinality(ws);
  }

  method OnesCount64(w: Word) returns (n: nat)
    ensures n == Ones(w, WORDSIZE)
  {
    n := 0;
    var i := 0;
    while i < WORDSIZE
      invariant 0 <= i <= WORDSIZE && n == Ones(w, i)
    {
      if BitAt(w, i) {
        n := n + 1;
      }
      i := i + 1;
    }
  }

  method Hash(ws: seq<Word>) returns (h: Word)
    ensures h == HashOf(ws)
  {
    var n := Popcnt(ws);
    PopcountIsCardinality(ws);
    h := AsWord(n);
    var i := 0;
    while i < |ws|
      invariant 0 <= i <= |ws| && h == XorAll(AsWord(n), ws[..i])
    {
      assert ws[..i + 1][..i] == ws[..i];
      h := XorWord(h, ws[i]);
      i := i + 1;
    }
    assert ws[..|ws|] == ws;
  }

  method Equals(a: seq<Word>, b: seq<Word>) returns (eq: bool)
    ensures eq <==> |a| == |b| && Bits(a) == Bits(b)
  {
    if |a| != |b| {
      return false;
    }
    SameBitsSameWords(a, b);
    var i := 0;
    while i < |a|
      invariant 0 <= i <= |a| && a[..i] == b[..i]
    {
      if a[i] != b[i] {
        return false;
      }
      i := i + 1;
    }
    return true;
  }

  /** Equal sets share a hash bucket. */
  lemma EqualSetsShareBucket(a: seq<Word>, b: seq<Word>)
    requires |a| == |b| && Bits(a) == Bits(b)
    ensures HashOf(a) == HashOf(b)
  {
    SameBitsSameWords(a, b);
  }
}
