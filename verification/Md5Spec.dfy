/**
 * The MD5 message-digest algorithm as RFC 1321 defines it: padding (sections 3.1 and 3.2), the
 * registers (3.3) and 64 steps for every block of 16 words (3.4).
 */
module Md5Spec {
  import opened Bytes

  const BLOCK: nat := 64

  /** A 32-bit word. */
  datatype Word = Word(bits: bv32)

  datatype Chain = Chain(a: Word, b: Word, c: Word, d: Word)

  const INIT := Chain(Word(0x67452301), Word(0xefcdab89), Word(0x98badcfe), Word(0x10325476))

  function F(x: Word, y: Word, z: Word): Word {
    Word((x.bits & y.bits) | (!x.bits & z.bits))
  }

  function G(x: Word, y: Word, z: Word): Word {
    Word((x.bits & z.bits) | (y.bits & !z.bits))
  }

  function H(x: Word, y: Word, z: Word): Word {
    Word(x.bits ^ y.bits ^ z.bits)
  }

  function I(x: Word, y: Word, z: Word): Word {
    Word(y.bits ^ (x.bits | !z.bits))
  }

  function Plus(x: Word, y: Word): Word {
    Word(x.bits + y.bits)
  }

  function RotateLeft(x: bv32, n: bv32): bv32
    requires 0 < n < 32
  {
    (x << n) | (x >> (32 - n))
  }

  /** The new value of a register: f is the round's function of the other three. */
  function Mix(a: Word, f: Word, x: Word, t: Word, s: bv32, b: Word): Word
    requires 0 < s < 32
  {
    Word(RotateLeft(a.bits + f.bits + x.bits + t.bits, s) + b.bits)
  }

  /** The table of constants, which the RFC numbers from 1. */
  function T(i: nat): Word
    requires i < 64
  {
    Word(
      if i < 4 then [0xd76aa478, 0xe8c7b756, 0x242070db, 0xc1bdceee][i] else
      if i < 8 then [0xf57c0faf, 0x4787c62a, 0xa8304613, 0xfd469501][i - 4] else
      if i < 12 then [0x698098d8, 0x8b44f7af, 0xffff5bb1, 0x895cd7be][i - 8] else
      if i < 16 then [0x6b901122, 0xfd987193, 0xa679438e, 0x49b40821][i - 12] else
      if i < 20 then [0xf61e2562, 0xc040b340, 0x265e5a51, 0xe9b6c7aa][i - 16] else
      if i < 24 then [0xd62f105d, 0x02441453, 0xd8a1e681, 0xe7d3fbc8][i - 20] else
      if i < 28 then [0x21e1cde6, 0xc33707d6, 0xf4d50d87, 0x455a14ed][i - 24] else
      if i < 32 then [0xa9e3e905, 0xfcefa3f8, 0x676f02d9, 0x8d2a4c8a][i - 28] else
      if i < 36 then [0xfffa3942, 0x8771f681, 0x6d9d6122, 0xfde5380c][i - 32] else
      if i < 40 then [0xa4beea44, 0x4bdecfa9, 0xf6bb4b60, 0xbebfbc70][i - 36] else
      if i < 44 then [0x289b7ec6, 0xeaa127fa, 0xd4ef3085, 0x04881d05][i - 40] else
      if i < 48 then [0xd9d4d039, 0xe6db99e5, 0x1fa27cf8, 0xc4ac5665][i - 44] else
      if i < 52 then [0xf4292244, 0x432aff97, 0xab9423a7, 0xfc93a039][i - 48] else
      if i < 56 then [0x655b59c3, 0x8f0ccc92, 0xffeff47d, 0x85845dd1][i - 52] else
      if i < 60 then [0x6fa87e4f, 0xfe2ce6e0, 0xa3014314, 0x4e0811a1][i - 56] else
      [0xf7537e82, 0xbd3af235, 0x2ad7d2bb, 0xeb86d391][i - 60])
  }

  /** Which word of the block step i uses. */
  function WordIndex(i: nat): (k: nat)
    requires i < 64
    ensures k < 16
  {
    if i < 16 then i else if i < 32 then (5 * i + 1) % 16 else if i < 48 then (3 * i + 5) % 16 else 7 * i % 16
  }

  function Shift(i: nat): (s: bv32)
    requires i < 64
    ensures 0 < s < 32
  {
    if i < 16 then (match i % 4 case 0 => 7 case 1 => 12 case 2 => 17 case _ => 22)
    else if i < 32 then (match i % 4 case 0 => 5 case 1 => 9 case 2 => 14 case _ => 20)
    else if i < 48 then (match i % 4 case 0 => 4 case 1 => 11 case 2 => 16 case _ => 23)
    else (match i % 4 case 0 => 6 case 1 => 10 case 2 => 15 case _ => 21)
  }

  function RoundFunction(i: nat, x: Word, y: Word, z: Word): Word {
    if i < 16 then F(x, y, z) else if i < 32 then G(x, y, z) else if i < 48 then H(x, y, z) else I(x, y, z)
  }

  /** The registers after n steps; every step computes one register and turns all four. */
  function Steps(start: Chain, x: seq<Word>, n: nat): Chain
    requires |x| == 16 && n <= 64
  {
    if n == 0 then start else
    var i, r := n - 1, Steps(start, x, n - 1);
    Chain(r.d, Mix(r.a, RoundFunction(i, r.b, r.c, r.d), x[WordIndex(i)], T(i), Shift(i), r.b), r.b, r.c)
  }

  /** Word k of a block, lowest byte first. */
  function WordAt(block: seq<byte>, k: nat): Word
    requires |block| == BLOCK && k < 16
  {
    Word(WordOf(block[4 * k], block[4 * k + 1], block[4 * k + 2], block[4 * k + 3]) as bv32)
  }

  function Words(block: seq<byte>): (x: seq<Word>)
    requires |block| == BLOCK
    ensures |x| == 16
  {
    seq(16, k requires 0 <= k < 16 => WordAt(block, k))
  }

  function Compress(chain: Chain, block: seq<byte>): Chain
    requires |block| == BLOCK
  {
    var r := Steps(chain, Words(block), 64);
    Chain(Plus(chain.a, r.a), Plus(chain.b, r.b), Plus(chain.c, r.c), Plus(chain.d, r.d))
  }

  /** The registers after all whole blocks of a message. */
  function Blocks(chain: Chain, m: seq<byte>): Chain
    decreases |m|
  {
    if |m| < BLOCK then chain else Blocks(Compress(chain, m[..BLOCK]), m[BLOCK..])
  }

  /** Section 3.1: zero bytes up to 56 modulo 64, after the byte 0x80. */
  function PaddingZeros(n: nat): (k: nat)
    ensures k < BLOCK && (n + 1 + k) % BLOCK == 56
  {
    (55 - n) % BLOCK
  }

  /** Section 3.2: the low 64 bits of the length in bits, lowest byte first. */
  function LengthBytes(bits: nat): (b: seq<byte>)
    ensures |b| == 8
  {
    [(bits % 0x100) as byte, (bits / 0x100 % 0x100) as byte, (bits / 0x1_0000 % 0x100) as byte, (bits / 0x100_0000 % 0x100) as byte,
     (bits / 0x1_0000_0000 % 0x100) as byte, (bits / 0x100_0000_0000 % 0x100) as byte,
     (bits / 0x1_0000_0000_0000 % 0x100) as byte, (bits / 0x100_0000_0000_0000 % 0x100) as byte]
  }

  function Padded(m: seq<byte>): seq<byte> {
    m + [0x80] + Zeros(PaddingZeros(|m|)) + LengthBytes(8 * |m|)
  }

  lemma SkipBlocks(x: int, blocks: int)
    ensures (x + BLOCK * blocks) % BLOCK == x % BLOCK
  {
  }

  /** A padded message consists of whole blocks. */
  lemma PaddedIsWhole(m: seq<byte>)
    ensures |Padded(m)| % BLOCK == 0
  {
    var n := |m| + 1 + PaddingZeros(|m|);
    assert |Padded(m)| == n + 8;
    assert n == 56 + BLOCK * (n / BLOCK);
    SkipBlocks(0, n / BLOCK + 1);
  }

  /** Fewer zero bytes would not do. */
  lemma ZerosAreFewest(n: nat, k: nat)
    requires k < PaddingZeros(n)
    ensures (n + 1 + k) % BLOCK != 56
  {
    var q := (n + 1 + PaddingZeros(n)) / BLOCK;
    assert n + 1 + k == (56 - (PaddingZeros(n) - k)) + BLOCK * q;
    SkipBlocks(56 - (PaddingZeros(n) - k), q);
  }

  function WordBytes(w: Word): seq<byte> {
    LittleEndian(w.bits as int)
  }

  function Digest(m: seq<byte>): seq<byte> {
    var r := Blocks(INIT, Padded(m));
    WordBytes(r.a) + WordBytes(r.b) + WordBytes(r.c) + WordBytes(r.d)
  }

  /** Whole blocks may be taken off the front of a message at any block boundary. */
  lemma {:induction false} BlocksAppend(chain: Chain, m: seq<byte>, more: seq<byte>)
    requires |m| % BLOCK == 0
    ensures Blocks(chain, m + more) == Blocks(Blocks(chain, m), more)
    decreases |m|
  {
    hide Compress;
    if m == [] {
      assert m + more == more;
    } else {
      assert (m + more)[..BLOCK] == m[..BLOCK] && (m + more)[BLOCK..] == m[BLOCK..] + more;
      BlocksAppend(Compress(chain, m[..BLOCK]), m[BLOCK..], more);
    }
  }

  lemma OneMoreBlock(chain: Chain, m: seq<byte>, block: seq<byte>)
    requires |m| % BLOCK == 0 && |block| == BLOCK
    ensures Blocks(chain, m + block) == Compress(Blocks(chain, m), block)
  {
    hide Compress;
    BlocksAppend(chain, m, block);
    assert block[..BLOCK] == block && block[BLOCK..] == [];
  }

  lemma TailIgnored(chain: Chain, m: seq<byte>, tail: seq<byte>)
    requires |m| % BLOCK == 0 && |tail| < BLOCK
    ensures Blocks(chain, m + tail) == Blocks(chain, m)
  {
    BlocksAppend(chain, m, tail);
  }

  /** Four steps turn the registers back into their places. */
  lemma FourSteps(start: Chain, x: seq<Word>, n: nat)
    requires |x| == 16 && n + 4 <= 64
    ensures var r := Steps(start, x, n);
      var a := Mix(r.a, RoundFunction(n, r.b, r.c, r.d), x[WordIndex(n)], T(n), Shift(n), r.b);
      var d := Mix(r.d, RoundFunction(n + 1, a, r.b, r.c), x[WordIndex(n + 1)], T(n + 1), Shift(n + 1), a);
      var c := Mix(r.c, RoundFunction(n + 2, d, a, r.b), x[WordIndex(n + 2)], T(n + 2), Shift(n + 2), d);
      var b := Mix(r.b, RoundFunction(n + 3, c, d, a), x[WordIndex(n + 3)], T(n + 3), Shift(n + 3), c);
      Steps(start, x, n + 4) == Chain(a, b, c, d)
  {
    hide Mix, RoundFunction, WordIndex, Shift, T;
    assert Steps(start, x, n + 2) == Steps(start, x, (n + 1) + 1);
    assert Steps(start, x, n + 3) == Steps(start, x, (n + 2) + 1);
    assert Steps(start, x, n + 4) == Steps(start, x, (n + 3) + 1);
  }
}
