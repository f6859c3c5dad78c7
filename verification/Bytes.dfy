/** Bytes, and 32-bit words and integers with their lowest byte first. */
module Bytes {

  newtype byte = x: int | 0 <= x < 0x100

  type int32 = x: int | -0x8000_0000 <= x < 0x8000_0000

  const WORD: int := 0x1_0000_0000

  /** A 32-bit word. */
  type u32 = x: int | 0 <= x < 0x1_0000_0000

  /** Byte k of a word, lowest first. */
  function ByteOf(w: u32, k: nat): byte
    requires k < 4
  {
    (match k
     case 0 => w % 0x100
     case 1 => w / 0x100 % 0x100
     case 2 => w / 0x1_0000 % 0x100
     case _ => w / 0x100_0000) as byte
  }

  function LittleEndian(w: u32): (bytes: seq<byte>)
    ensures |bytes| == 4
  {
    [ByteOf(w, 0), ByteOf(w, 1), ByteOf(w, 2), ByteOf(w, 3)]
  }

  function WordOf(b0: byte, b1: byte, b2: byte, b3: byte): u32 {
    b0 as int + 0x100 * b1 as int + 0x1_0000 * b2 as int + 0x100_0000 * b3 as int
  }

  /** A number is its lowest byte and the rest. */
  lemma LowByte(q: nat, b: byte)
    ensures var n := 0x100 * q + b as int; n / 0x100 == q && n % 0x100 == b as int
  {
  }

  lemma Shifted(w: nat)
    ensures w / 0x1_0000 == w / 0x100 / 0x100 && w / 0x100_0000 == w / 0x100 / 0x100 / 0x100
  {
  }

  lemma DividedByByte(w: nat)
    ensures w == 0x100 * (w / 0x100) + w % 0x100
  {
  }

  lemma WordOfBytes(w: u32)
    ensures WordOf(ByteOf(w, 0), ByteOf(w, 1), ByteOf(w, 2), ByteOf(w, 3)) == w
  {
    Shifted(w);
    DividedByByte(w);
    DividedByByte(w / 0x100);
    DividedByByte(w / 0x100 / 0x100);
  }

  lemma BytesOfWord(b0: byte, b1: byte, b2: byte, b3: byte)
    ensures LittleEndian(WordOf(b0, b1, b2, b3)) == [b0, b1, b2, b3]
  {
    var w3 := b3 as int;
    var w2 := 0x100 * w3 + b2 as int;
    var w1 := 0x100 * w2 + b1 as int;
    var w := 0x100 * w1 + b0 as int;
    assert WordOf(b0, b1, b2, b3) == w;
    LowByte(w1, b0);
    LowByte(w2, b1);
    LowByte(w3, b2);
    BytesInTurn(w);
    hide ByteOf, WordOf;
  }

  lemma BytesInTurn(w: u32)
    ensures ByteOf(w, 0) as int == w % 0x100 && ByteOf(w, 1) as int == w / 0x100 % 0x100
    ensures ByteOf(w, 2) as int == w / 0x100 / 0x100 % 0x100 && ByteOf(w, 3) as int == w / 0x100 / 0x100 / 0x100
  {
    Shifted(w);
  }

  /** The bit pattern of a 32-bit integer, read as an unsigned number. */
  function Unsigned(v: int32): u32 {
    if v < 0 then v + WORD else v
  }

  function Signed(w: u32): int32 {
    if w < 0x8000_0000 then w else w - WORD
  }

  function EncodeInt32(v: int32): (bytes: seq<byte>)
    ensures |bytes| == 4
  {
    LittleEndian(Unsigned(v))
  }

  function DecodeInt32(b0: byte, b1: byte, b2: byte, b3: byte): int32 {
    Signed(WordOf(b0, b1, b2, b3))
  }

  lemma DecodeEncodeInt32(v: int32)
    ensures var b := EncodeInt32(v); DecodeInt32(b[0], b[1], b[2], b[3]) == v
  {
    hide ByteOf, WordOf;
    WordOfBytes(Unsigned(v));
  }

  lemma SkipWords(x: int, q: int)
    ensures (x + q * WORD) % WORD == x % WORD
  {
  }

  function Zeros(n: nat): (z: seq<byte>)
    ensures |z| == n && forall i :: 0 <= i < n ==> z[i] == 0
  {
    seq(n, _ => 0)
  }

  /** All pieces of a sequence of byte strings, one after the other. */
  function Concat<T>(pieces: seq<seq<T>>): seq<T> {
    if pieces == [] then [] else Concat(pieces[..|pieces| - 1]) + pieces[|pieces| - 1]
  }

  lemma {:induction false} ConcatAppend<T>(left: seq<seq<T>>, right: seq<seq<T>>)
    ensures Concat(left + right) == Concat(left) + Concat(right)
  {
    if right == [] {
      assert left + right == left;
    } else {
      var front := right[..|right| - 1];
      assert (left + right)[..|left + right| - 1] == left + front;
      ConcatAppend(left, front);
    }
  }
}
