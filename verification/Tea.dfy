/** The block cipher of encrypted configuration files, and the hexadecimal form they are kept in. */
module Tea {
  import opened Bytes
  import opened Collections

  const BLOCK: nat := 8
  const ROUNDS: nat := 32
  const DELTA: int := 0x9E37_79B9

  datatype Key = Key(a: u32, b: u32, c: u32, d: u32)

  datatype Pair = Pair(y: u32, z: u32)

  function Add(x: u32, f: int): u32 {
    (x + f) % WORD
  }

  /** Shifting a signed word right keeps its sign. */
  function ShiftRight5(x: bv32): bv32 {
    if x & 0x8000_0000 != 0 then (x >> 5) | 0xF800_0000 else x >> 5
  }

  /** What a half round adds to one word: sums are taken before they are combined. */
  function Half(x: u32, sum: u32, k0: u32, k1: u32): int {
    var w := x as bv32;
    (((w << 4) + (k0 as bv32)) ^ (w + (sum as bv32)) ^ (ShiftRight5(w) + (k1 as bv32))) as int
  }

  function Sum(n: nat): u32 {
    n * DELTA % WORD
  }

  /** Round n; rounds are numbered from 1. */
  function Round(p: Pair, k: Key, n: nat): Pair {
    var y := Add(p.y, Half(p.z, Sum(n), k.a, k.b));
    Pair(y, Add(p.z, Half(y, Sum(n), k.c, k.d)))
  }

  function Unround(p: Pair, k: Key, n: nat): Pair {
    var z := Add(p.z, -Half(p.y, Sum(n), k.c, k.d));
    Pair(Add(p.y, -Half(z, Sum(n), k.a, k.b)), z)
  }

  function Rounds(p: Pair, k: Key, n: nat): Pair {
    if n == 0 then p else Round(Rounds(p, k, n - 1), k, n)
  }

  /** The rounds from n down to 1 are undone. */
  function Unrounds(p: Pair, k: Key, n: nat): Pair
    decreases n
  {
    if n == 0 then p else Unrounds(Unround(p, k, n), k, n - 1)
  }

  lemma SubtractAdded(x: u32, f: int)
    ensures Add(Add(x, f), -f) == x
  {
    AddMod(x + f, -f);
  }

  lemma UnroundRound(p: Pair, k: Key, n: nat)
    ensures Unround(Round(p, k, n), k, n) == p
  {
    hide Half, Sum, Add;
    var y := Add(p.y, Half(p.z, Sum(n), k.a, k.b));
    SubtractAdded(p.z, Half(y, Sum(n), k.c, k.d));
    SubtractAdded(p.y, Half(p.z, Sum(n), k.a, k.b));
  }

  lemma {:induction false} UnroundsRounds(p: Pair, k: Key, n: nat)
    ensures Unrounds(Rounds(p, k, n), k, n) == p
  {
    hide Round, Unround;
    if n > 0 {
      UnroundRound(Rounds(p, k, n - 1), k, n);
      UnroundsRounds(p, k, n - 1);
    }
  }

  lemma AddMod(x: int, f: int)
    ensures (x % WORD + f) % WORD == (x + f) % WORD
  {
    var q := x / WORD;
    assert x + f == (x % WORD + f) + q * WORD;
    SkipWords(x % WORD + f, q);
  }

  lemma SumGrows(n: nat)
    ensures Sum(n + 1) == Add(Sum(n), DELTA) && Sum(n) == Add(Sum(n + 1), -DELTA)
  {
    assert (n + 1) * DELTA == n * DELTA + DELTA;
    AddMod(n * DELTA, DELTA);
    SubtractAdded(Sum(n), DELTA);
  }

  method Encipher(p: Pair, k: Key) returns (r: Pair)
    ensures r == Rounds(p, k, ROUNDS)
  {
    hide Half, Sum, Add;
    var y, z := p.y, p.z;
    var sum: u32 := 0;
    assert Sum(0) == 0 by { NoSum(); }
    var n := ROUNDS;
    while n > 0
      invariant 0 <= n <= ROUNDS && sum == Sum(ROUNDS - n) && Pair(y, z) == Rounds(p, k, ROUNDS - n)
    {
      n := n - 1;
      SumGrows(ROUNDS - n - 1);
      sum := Add(sum, DELTA);
      y := Add(y, Half(z, sum, k.a, k.b));
      z := Add(z, Half(y, sum, k.c, k.d));
    }
    r := Pair(y, z);
  }

  lemma NoSum()
    ensures Sum(0) == 0 && Sum(ROUNDS) == 0xC6EF_3720
  {
  }

  method Decipher(p: Pair, k: Key) returns (r: Pair)
    ensures r == Unrounds(p, k, ROUNDS)
  {
    hide Half, Sum, Add;
    var y, z := p.y, p.z;
    var sum: u32 := 0xC6EF_3720;
    NoSum();
    var n := ROUNDS;
    while n > 0
      invariant 0 <= n <= ROUNDS && sum == Sum(n) && Unrounds(Pair(y, z), k, n) == Unrounds(p, k, ROUNDS)
    {
      n := n - 1;
      z := Add(z, -Half(y, sum, k.c, k.d));
      y := Add(y, -Half(z, sum, k.a, k.b));
      SumGrows(n);
      sum := Add(sum, -DELTA);
    }
    r := Pair(y, z);
  }

  // Blocks of eight bytes, two words each, lowest byte first.

  function WordAt(b: seq<byte>, i: nat): u32
    requires i + 4 <= |b|
  {
    WordOf(b[i], b[i + 1], b[i + 2], b[i + 3])
  }

  function PairOf(block: seq<byte>): Pair
    requires |block| == BLOCK
  {
    Pair(WordAt(block, 0), WordAt(block, 4))
  }

  function BlockOf(p: Pair): (block: seq<byte>)
    ensures |block| == BLOCK
  {
    LittleEndian(p.y) + LittleEndian(p.z)
  }

  function EncodeBlock(block: seq<byte>, k: Key): (r: seq<byte>)
    requires |block| == BLOCK
    ensures |r| == BLOCK
  {
    BlockOf(Rounds(PairOf(block), k, ROUNDS))
  }

  function DecodeBlock(block: seq<byte>, k: Key): (r: seq<byte>)
    requires |block| == BLOCK
    ensures |r| == BLOCK
  {
    BlockOf(Unrounds(PairOf(block), k, ROUNDS))
  }

  lemma DecodeEncodeBlock(block: seq<byte>, k: Key)
    requires |block| == BLOCK
    ensures DecodeBlock(EncodeBlock(block, k), k) == block
  {
    hide ByteOf, WordOf, Rounds, Unrounds;
    var p := PairOf(block);
    var r := Rounds(p, k, ROUNDS);
    WordOfBytes(r.y);
    WordOfBytes(r.z);
    UnroundsRounds(p, k, ROUNDS);
    BytesOfWord(block[0], block[1], block[2], block[3]);
    BytesOfWord(block[4], block[5], block[6], block[7]);
  }

  function EncodeBlocks(data: seq<byte>, k: Key): (r: seq<byte>)
    requires |data| % BLOCK == 0
    ensures |r| == |data|
  {
    if data == [] then [] else EncodeBlock(data[..BLOCK], k) + EncodeBlocks(data[BLOCK..], k)
  }

  function DecodeBlocks(data: seq<byte>, k: Key): (r: seq<byte>)
    requires |data| % BLOCK == 0
    ensures |r| == |data|
  {
    if data == [] then [] else DecodeBlock(data[..BLOCK], k) + DecodeBlocks(data[BLOCK..], k)
  }

  lemma {:induction false} DecodeEncodeBlocks(data: seq<byte>, k: Key)
    requires |data| % BLOCK == 0
    ensures DecodeBlocks(EncodeBlocks(data, k), k) == data
    decreases |data|
  {
    hide EncodeBlock, DecodeBlock;
    if data != [] {
      var first, rest := EncodeBlock(data[..BLOCK], k), EncodeBlocks(data[BLOCK..], k);
      assert (first + rest)[..BLOCK] == first && (first + rest)[BLOCK..] == rest;
      DecodeEncodeBlock(data[..BLOCK], k);
      DecodeEncodeBlocks(data[BLOCK..], k);
      assert data == data[..BLOCK] + data[BLOCK..];
    }
  }

  /** How many zero bytes fill the last block. */
  function FillLength(n: nat): (fill: nat)
    ensures fill < BLOCK && (n + fill) % BLOCK == 0
  {
    if n % BLOCK == 0 then 0 else BLOCK - n % BLOCK
  }

  /** The first 16 bytes of the cipher string, with zeros behind them. */
  function KeyOf(cipher: seq<byte>): Key {
    var k := if |cipher| > 16 then cipher[..16] else cipher + Zeros(16 - |cipher|);
    Key(WordAt(k, 0), WordAt(k, 4), WordAt(k, 8), WordAt(k, 12))
  }

  /** Bytes, or the negative number the code returns. */
  datatype Coded = Coded(bytes: seq<byte>) | Failed(code: int)

  function Encode(data: seq<byte>, cipher: seq<byte>): Coded {
    if data == [] then Failed(-1) else Coded(EncodeBlocks(data + Zeros(FillLength(|data|)), KeyOf(cipher)))
  }

  function Decode(data: seq<byte>, cipher: seq<byte>): Coded {
    if data == [] then Failed(-1) else if |data| % BLOCK != 0 then Failed(-2) else Coded(DecodeBlocks(data, KeyOf(cipher)))
  }

  /** Decoding gives the data back, with the zero bytes that filled its last block. */
  lemma DecodeEncode(data: seq<byte>, cipher: seq<byte>)
    requires data != []
    ensures Encode(data, cipher).Coded?
    ensures Decode(Encode(data, cipher).bytes, cipher) == Coded(data + Zeros(FillLength(|data|)))
  {
    hide EncodeBlocks, DecodeBlocks, KeyOf;
    var filled := data + Zeros(FillLength(|data|));
    assert filled != [];
    DecodeEncodeBlocks(filled, KeyOf(cipher));
  }

  /** Replaces one block of a buffer. */
  method Store(buf: array<byte>, i: nat, block: seq<byte>)
    requires |block| == BLOCK && i + BLOCK <= buf.Length
    modifies buf
    ensures buf[..] == old(buf[..i]) + block + old(buf[i + BLOCK..])
  {
    forall j | 0 <= j < BLOCK {
      buf[i + j] := block[j];
    }
  }

  method EncipherAt(buf: array<byte>, i: nat, key: Key)
    requires i + BLOCK <= buf.Length
    modifies buf
    ensures buf[..] == old(buf[..i]) + EncodeBlock(old(buf[i..i + BLOCK]), key) + old(buf[i + BLOCK..])
  {
    hide Rounds, ByteOf, WordOf;
    var p := Encipher(PairOf(buf[i..i + BLOCK]), key);
    Store(buf, i, BlockOf(p));
  }

  method DecipherAt(buf: array<byte>, i: nat, key: Key)
    requires i + BLOCK <= buf.Length
    modifies buf
    ensures buf[..] == old(buf[..i]) + DecodeBlock(old(buf[i..i + BLOCK]), key) + old(buf[i + BLOCK..])
  {
    hide Unrounds, ByteOf, WordOf;
    var p := Decipher(PairOf(buf[i..i + BLOCK]), key);
    Store(buf, i, BlockOf(p));
  }

  lemma EncodeStep(done: seq<byte>, rest: seq<byte>, k: Key)
    requires |rest| % BLOCK == 0 && rest != []
    ensures |rest| >= BLOCK
    ensures done + EncodeBlock(rest[..BLOCK], k) + EncodeBlocks(rest[BLOCK..], k) == done + EncodeBlocks(rest, k)
  {
    hide EncodeBlock;
    var block, todo := EncodeBlock(rest[..BLOCK], k), EncodeBlocks(rest[BLOCK..], k);
    assert done + block + todo == done + (block + todo);
  }

  lemma DecodeStep(done: seq<byte>, rest: seq<byte>, k: Key)
    requires |rest| % BLOCK == 0 && rest != []
    ensures |rest| >= BLOCK
    ensures done + DecodeBlock(rest[..BLOCK], k) + DecodeBlocks(rest[BLOCK..], k) == done + DecodeBlocks(rest, k)
  {
    hide DecodeBlock;
    var block, todo := DecodeBlock(rest[..BLOCK], k), DecodeBlocks(rest[BLOCK..], k);
    assert done + block + todo == done + (block + todo);
  }

  lemma Split(done: seq<byte>, rest: seq<byte>)
    requires |rest| >= BLOCK
    ensures var buf, i := done + rest, |done|;
      buf[..i] == done && buf[i..i + BLOCK] == rest[..BLOCK] && buf[i + BLOCK..] == rest[BLOCK..]
  {
  }

  /** Enciphers block after block in place. */
  method EncipherAll(start: seq<byte>, key: Key) returns (r: seq<byte>)
    requires |start| % BLOCK == 0
    ensures r == EncodeBlocks(start, key)
  {
    hide EncodeBlock, EncodeBlocks;
    var buf := new byte[|start|](j requires 0 <= j < |start| => start[j]);
    ghost var done, rest := [], start;
    assert [] + EncodeBlocks(start, key) == EncodeBlocks(start, key);
    var i := 0;
    while i < buf.Length
      invariant i == |done| && buf[..] == done + rest && |rest| % BLOCK == 0
      invariant done + EncodeBlocks(rest, key) == EncodeBlocks(start, key)
      decreases |rest|
    {
      EncodeStep(done, rest, key);
      Split(done, rest);
      ghost var block, more := EncodeBlock(rest[..BLOCK], key), rest[BLOCK..];
      EncipherAt(buf, i, key);
      assert buf[..] == done + block + more;
      done, rest := done + block, more;
      i := i + BLOCK;
    }
    NothingEncoded(done, key);
    r := buf[..];
  }

  lemma NothingEncoded(done: seq<byte>, k: Key)
    ensures done + EncodeBlocks([], k) == done
  {
  }

  /** Deciphers block after block in place. */
  method DecipherAll(start: seq<byte>, key: Key) returns (r: seq<byte>)
    requires |start| % BLOCK == 0
    ensures r == DecodeBlocks(start, key)
  {
    hide DecodeBlock, DecodeBlocks;
    var buf := new byte[|start|](j requires 0 <= j < |start| => start[j]);
    ghost var done, rest := [], start;
    assert [] + DecodeBlocks(start, key) == DecodeBlocks(start, key);
    var i := 0;
    while i < buf.Length
      invariant i == |done| && buf[..] == done + rest && |rest| % BLOCK == 0
      invariant done + DecodeBlocks(rest, key) == DecodeBlocks(start, key)
      decreases |rest|
    {
      DecodeStep(done, rest, key);
      Split(done, rest);
      ghost var block, more := DecodeBlock(rest[..BLOCK], key), rest[BLOCK..];
      DecipherAt(buf, i, key);
      assert buf[..] == done + block + more;
      done, rest := done + block, more;
      i := i + BLOCK;
    }
    NothingDecoded(done, key);
    r := buf[..];
  }

  lemma NothingDecoded(done: seq<byte>, k: Key)
    ensures done + DecodeBlocks([], k) == done
  {
  }

  /** Enciphers the data, filled up with zeros. */
  method TeaEncode(data: seq<byte>, cipher: seq<byte>) returns (r: Coded)
    ensures r == Encode(data, cipher)
  {
    hide EncodeBlocks, KeyOf;
    if |data| == 0 {
      return Failed(-1);
    }
    var fill := |data| % BLOCK;
    if fill != 0 {
      fill := BLOCK - fill;
    }
    var out := EncipherAll(data + Zeros(fill), KeyOf(cipher));
    r := Coded(out);
  }

  /** Deciphers data; if it is not made of whole blocks it is refused. */
  method TeaDecode(data: seq<byte>, cipher: seq<byte>) returns (r: Coded)
    ensures r == Decode(data, cipher)
  {
    hide DecodeBlocks, KeyOf;
    if |data| == 0 {
      return Failed(-1);
    }
    if |data| % BLOCK != 0 {
      return Failed(-2);
    }
    var out := DecipherAll(data, KeyOf(cipher));
    r := Coded(out);
  }

  // The hexadecimal form.

  function HexDigit(n: nat): byte
    requires n < 16
  {
    (if n < 10 then 48 + n else 55 + n) as byte
  }

  function HexOf(data: seq<byte>): (h: seq<byte>)
    ensures |h| == 2 * |data|
  {
    if data == [] then [] else
    var b := data[0] as int;
    [HexDigit(b / 16), HexDigit(b % 16)] + HexOf(data[1..])
  }

  /** The value of a hexadecimal digit of either case, or 16. */
  function DigitValue(c: byte): (v: nat)
    ensures v <= 16
  {
    if 48 <= c <= 57 then (c - 48) as int else if 65 <= c <= 70 then (c - 55) as int else if 97 <= c <= 102 then (c - 87) as int else 16
  }

  function IsSpace(c: byte): bool {
    c == 32 || 9 <= c <= 13
  }

  /** What strtoul makes of a string of at most two characters in base 16, cut to a byte. */
  function HexValue(c0: byte, c1: byte): byte {
    var d0, d1 := DigitValue(c0), DigitValue(c1);
    if d0 < 16 then (if d1 < 16 then 16 * d0 + d1 else d0) as byte
    else if d1 == 16 || (!IsSpace(c0) && c0 != 43 && c0 != 45) then 0
    else if c0 == 45 then ((0x100 - d1) % 0x100) as byte
    else d1 as byte
  }

  function UnhexOf(h: seq<byte>): (data: seq<byte>)
    requires |h| % 2 == 0
    ensures |data| == |h| / 2
  {
    if h == [] then [] else [HexValue(h[0], h[1])] + UnhexOf(h[2..])
  }

  lemma {:induction false} UnhexHex(data: seq<byte>)
    ensures UnhexOf(HexOf(data)) == data
  {
    if data != [] {
      var b := data[0] as int;
      var h := HexOf(data);
      assert h[2..] == HexOf(data[1..]);
      assert b == 16 * (b / 16) + b % 16;
      UnhexHex(data[1..]);
    }
  }

  method AsciiToHex(data: seq<byte>) returns (code: seq<byte>)
    ensures code == HexOf(data)
  {
    hide HexDigit;
    code := [];
    var todo := data;
    Regroup([], [], HexOf(data));
    while todo != []
      invariant code + HexOf(todo) == HexOf(data)
      decreases |todo|
    {
      var b := todo[0] as int;
      var pair := [HexDigit(b / 16), HexDigit(b % 16)];
      Regroup(code, pair, HexOf(todo[1..]));
      code := code + pair;
      todo := todo[1..];
    }
    Regroup([], [], code);
  }

  method HexToAscii(data: seq<byte>) returns (code: seq<byte>)
    requires |data| % 2 == 0
    ensures code == UnhexOf(data)
  {
    hide HexValue;
    code := [];
    var todo := data;
    Regroup([], [], UnhexOf(data));
    while todo != []
      invariant |todo| % 2 == 0 && code + UnhexOf(todo) == UnhexOf(data)
      decreases |todo|
    {
      var c := [HexValue(todo[0], todo[1])];
      Regroup(code, c, UnhexOf(todo[2..]));
      code := code + c;
      todo := todo[2..];
    }
    Regroup([], [], code);
  }
}
