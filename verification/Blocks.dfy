/** Disk blocks as the kernel sees them: 512 bytes, also read as 128 little-endian
    32-bit words (log header, indirect table) or as 4096 bits (free map). */
module Blocks {
  const BSIZE: nat := 512
  const WORDS: nat := 128
  const BPB: nat := 4096

  type byte = x: int | 0 <= x < 256
  type uint32 = x: int | 0 <= x < 0x1_0000_0000
  type Block = b: seq<byte> | |b| == 512 witness seq(512, _ => 0)

  datatype Option<+T> = None | Some(value: T)

  function ZeroBlock(): (z: Block)
    ensures forall i | 0 <= i < 512 :: z[i] == 0
  {
    seq(512, _ => 0)
  }

  /** The i-th 32-bit word of a block, least significant byte first. */
  function WordAt(b: Block, i: nat): uint32
    requires i < WORDS
  {
    var b0: int, b1: int, b2: int, b3: int := b[4 * i], b[4 * i + 1], b[4 * i + 2], b[4 * i + 3];
    b0 + 0x100 * b1 + 0x1_0000 * b2 + 0x100_0000 * b3
  }

  /** A word is the sum of its bytes. */
  lemma Digits(w: uint32)
    ensures w % 0x100 + 0x100 * (w / 0x100 % 0x100) + 0x1_0000 * (w / 0x1_0000 % 0x100) +
            0x100_0000 * (w / 0x100_0000) == w
    ensures 0 <= w / 0x100_0000 < 0x100
  {
    assert w / 0x100 / 0x100 == w / 0x1_0000 && w / 0x1_0000 / 0x100 == w / 0x100_0000;
  }

  /** Storing a word is read back as stored and disturbs no other word. */
  function PutWord(b: Block, i: nat, w: uint32): (r: Block)
    requires i < WORDS
    ensures WordAt(r, i) == w
    ensures forall j: nat | j < WORDS && j != i :: WordAt(r, j) == WordAt(b, j)
  {
    Digits(w);
    b[4 * i := w % 0x100][4 * i + 1 := w / 0x100 % 0x100][4 * i + 2 := w / 0x1_0000 % 0x100][4 * i +
      3 := w / 0x100_0000]
  }

  /** The bytes of a word stand in the block from the least significant one on. */
  lemma WordBytes(b: Block, i: nat)
    requires i < WORDS
    ensures b[4 * i] == WordAt(b, i) % 0x100 && b[4 * i + 1] == WordAt(b, i) / 0x100 % 0x100
    ensures b[4 * i + 2] == WordAt(b, i) / 0x1_0000 % 0x100 && b[4 * i + 3] == WordAt(b, i) / 0x100_0000
  {
    FourBytes(b[4 * i], b[4 * i + 1], b[4 * i + 2], b[4 * i + 3]);
  }

  lemma FourBytes(b0: byte, b1: byte, b2: byte, b3: byte)
    ensures var w := b0 + 0x100 * b1 + 0x1_0000 * b2 + 0x100_0000 * b3;
            w % 0x100 == b0 && w / 0x100 % 0x100 == b1 && w / 0x1_0000 % 0x100 == b2 && w / 0x100_0000 == b3
  {
    var w := b0 + 0x100 * b1 + 0x1_0000 * b2 + 0x100_0000 * b3;
    var q1: int, q2: int := b1 + 0x100 * b2 + 0x1_0000 * b3, b2 + 0x100 * b3;
    assert w == 0x100 * q1 + b0 && q1 == 0x100 * q2 + b1;
    assert w == 0x1_0000 * q2 + (b0 + 0x100 * b1);
    assert w == 0x100_0000 * b3 + (b0 + 0x100 * b1 + 0x1_0000 * b2);
  }

  lemma ZeroWords(i: nat)
    requires i < WORDS
    ensures WordAt(ZeroBlock(), i) == 0
  {
  }

  /** Bit k of x, i.e. (x & (1 << k)) != 0. */
  predicate TestBit(x: nat, k: nat) {
    if k == 0 then x % 2 == 1 else TestBit(x / 2, k - 1)
  }

  lemma Halves(r: nat, z: nat)
    requires r < 2
    ensures (r + 2 * z) / 2 == z && (r + 2 * z) % 2 == r
  {
  }

  /** x | (1 << k) when on, x & ~(1 << k) otherwise. */
  function SetBit(x: nat, k: nat, on: bool): (y: nat)
    ensures TestBit(y, k) == on
  {
    if k == 0 then
      var bit := if on then 1 else 0;
      Halves(bit, x / 2);
      bit + 2 * (x / 2)
    else
      var rest := SetBit(x / 2, k - 1, on);
      Halves(x % 2, rest);
      x % 2 + 2 * rest
  }

  function Pow2(n: nat): nat {
    if n == 0 then 1 else 2 * Pow2(n - 1)
  }

  lemma {:induction false} SetBitStaysInWidth(x: nat, k: nat, on: bool, n: nat)
    requires k < n && x < Pow2(n)
    ensures SetBit(x, k, on) < Pow2(n)
  {
    hide TestBit;
    HalfBelow(x, Pow2(n - 1));
    if k > 0 {
      SetBitStaysInWidth(x / 2, k - 1, on, n - 1);
      assert SetBit(x, k, on) == x % 2 + 2 * SetBit(x / 2, k - 1, on);
    }
  }

  lemma HalfBelow(x: nat, p: nat)
    requires x < 2 * p
    ensures x / 2 < p && x % 2 < 2
  {
  }

  lemma {:induction false} SetBitKeepsOthers(x: nat, k: nat, on: bool, j: nat)
    requires j != k
    ensures TestBit(SetBit(x, k, on), j) == TestBit(x, j)
  {
    if k == 0 {
      Halves(if on then 1 else 0, x / 2);
    } else {
      Halves(x % 2, SetBit(x / 2, k - 1, on));
      if j > 0 {
        SetBitKeepsOthers(x / 2, k - 1, on, j - 1);
      }
    }
  }

  /** Bit k is worth 2^k. */
  lemma {:induction false} BitIs(x: nat, k: nat)
    ensures Pow2(k) > 0 && (TestBit(x, k) <==> x / Pow2(k) % 2 == 1)
  {
    if k > 0 {
      BitIs(x / 2, k - 1);
      DivDiv(x, Pow2(k - 1));
    }
  }

  lemma DivDiv(x: nat, p: nat)
    requires p > 0
    ensures x / 2 / p == x / (2 * p)
  {
    var q, r := x / 2 / p, x / 2 % p;
    assert x / 2 == q * p + r;
    OneQuotient(q, x / (2 * p), 2 * p, 2 * r + x % 2, x % (2 * p));
  }

  lemma OneQuotient(q: int, e: int, d: int, r: int, s: int)
    requires 0 <= r < d && 0 <= s < d && q * d + r == e * d + s
    ensures q == e
  {
    if q > e {
      FarApart(q, e, d);
    } else if q < e {
      FarApart(e, q, d);
    }
  }

  lemma FarApart(q: int, e: int, d: int)
    requires q > e && d > 0
    ensures q * d >= e * d + d
  {
    var k := q - e - 1;
    assert q == e + 1 + k && k * d >= 0;
    assert (e + 1 + k) * d == e * d + d + k * d;
  }

  /** Bit i of a block, counted from the least significant bit of byte 0. */
  predicate BitAt(b: Block, i: nat)
    requires i < BPB
  {
    TestBit(b[i / 8], i % 8)
  }

  /** Marking a bit is read back as marked and disturbs no other bit. */
  function PutBit(b: Block, i: nat, on: bool): (r: Block)
    requires i < BPB
    ensures BitAt(r, i) == on
    ensures forall j: nat | j < BPB && j != i :: BitAt(r, j) == BitAt(b, j)
  {
    var x := SetBit(b[i / 8], i % 8, on);
    assert Pow2(8) == 256;
    SetBitStaysInWidth(b[i / 8], i % 8, on, 8);
    assert forall j: nat | j < BPB && j != i && j / 8 == i / 8 :: TestBit(x, j % 8) == TestBit(b[i / 8], j % 8) by {
      forall j: nat | j < BPB && j != i && j / 8 == i / 8
        ensures TestBit(x, j % 8) == TestBit(b[i / 8], j % 8)
      {
        SetBitKeepsOthers(b[i / 8], i % 8, on, j % 8);
      }
    }
    b[i / 8 := x]
  }
}
