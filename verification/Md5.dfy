/** MD5 computed in pieces, in the same buffer and with unrolled rounds. */
module Md5 {
  import opened Bytes
  import opened Md5Spec

  /** The words, shifts and function of round 1. */
  lemma Table1()
    ensures WordIndex(0) == 0 && WordIndex(1) == 1 && WordIndex(2) == 2 && WordIndex(3) == 3
    ensures WordIndex(4) == 4 && WordIndex(5) == 5 && WordIndex(6) == 6 && WordIndex(7) == 7
    ensures WordIndex(8) == 8 && WordIndex(9) == 9 && WordIndex(10) == 10 && WordIndex(11) == 11
    ensures WordIndex(12) == 12 && WordIndex(13) == 13 && WordIndex(14) == 14 && WordIndex(15) == 15
    ensures Shift(0) == 7 && Shift(1) == 12 && Shift(2) == 17 && Shift(3) == 22
    ensures Shift(4) == 7 && Shift(5) == 12 && Shift(6) == 17 && Shift(7) == 22
    ensures Shift(8) == 7 && Shift(9) == 12 && Shift(10) == 17 && Shift(11) == 22
    ensures Shift(12) == 7 && Shift(13) == 12 && Shift(14) == 17 && Shift(15) == 22
    ensures forall i, x, y, z :: 0 <= i < 16 ==> RoundFunction(i, x, y, z) == F(x, y, z)
  {
  }

  /** The words, shifts and function of round 2. */
  lemma Table2()
    ensures WordIndex(16) == 1 && WordIndex(17) == 6 && WordIndex(18) == 11 && WordIndex(19) == 0
    ensures WordIndex(20) == 5 && WordIndex(21) == 10 && WordIndex(22) == 15 && WordIndex(23) == 4
    ensures WordIndex(24) == 9 && WordIndex(25) == 14 && WordIndex(26) == 3 && WordIndex(27) == 8
    ensures WordIndex(28) == 13 && WordIndex(29) == 2 && WordIndex(30) == 7 && WordIndex(31) == 12
    ensures Shift(16) == 5 && Shift(17) == 9 && Shift(18) == 14 && Shift(19) == 20
    ensures Shift(20) == 5 && Shift(21) == 9 && Shift(22) == 14 && Shift(23) == 20
    ensures Shift(24) == 5 && Shift(25) == 9 && Shift(26) == 14 && Shift(27) == 20
    ensures Shift(28) == 5 && Shift(29) == 9 && Shift(30) == 14 && Shift(31) == 20
    ensures forall i, x, y, z :: 16 <= i < 32 ==> RoundFunction(i, x, y, z) == G(x, y, z)
  {
  }

  /** The words, shifts and function of round 3. */
  lemma Table3()
    ensures WordIndex(32) == 5 && WordIndex(33) == 8 && WordIndex(34) == 11 && WordIndex(35) == 14
    ensures WordIndex(36) == 1 && WordIndex(37) == 4 && WordIndex(38) == 7 && WordIndex(39) == 10
    ensures WordIndex(40) == 13 && WordIndex(41) == 0 && WordIndex(42) == 3 && WordIndex(43) == 6
    ensures WordIndex(44) == 9 && WordIndex(45) == 12 && WordIndex(46) == 15 && WordIndex(47) == 2
    ensures Shift(32) == 4 && Shift(33) == 11 && Shift(34) == 16 && Shift(35) == 23
    ensures Shift(36) == 4 && Shift(37) == 11 && Shift(38) == 16 && Shift(39) == 23
    ensures Shift(40) == 4 && Shift(41) == 11 && Shift(42) == 16 && Shift(43) == 23
    ensures Shift(44) == 4 && Shift(45) == 11 && Shift(46) == 16 && Shift(47) == 23
    ensures forall i, x, y, z :: 32 <= i < 48 ==> RoundFunction(i, x, y, z) == H(x, y, z)
  {
  }

  /** The words, shifts and function of round 4. */
  lemma Table4()
    ensures WordIndex(48) == 0 && WordIndex(49) == 7 && WordIndex(50) == 14 && WordIndex(51) == 5
    ensures WordIndex(52) == 12 && WordIndex(53) == 3 && WordIndex(54) == 10 && WordIndex(55) == 1
    ensures WordIndex(56) == 8 && WordIndex(57) == 15 && WordIndex(58) == 6 && WordIndex(59) == 13
    ensures WordIndex(60) == 4 && WordIndex(61) == 11 && WordIndex(62) == 2 && WordIndex(63) == 9
    ensures Shift(48) == 6 && Shift(49) == 10 && Shift(50) == 15 && Shift(51) == 21
    ensures Shift(52) == 6 && Shift(53) == 10 && Shift(54) == 15 && Shift(55) == 21
    ensures Shift(56) == 6 && Shift(57) == 10 && Shift(58) == 15 && Shift(59) == 21
    ensures Shift(60) == 6 && Shift(61) == 10 && Shift(62) == 15 && Shift(63) == 21
    ensures forall i, x, y, z :: 48 <= i < 64 ==> RoundFunction(i, x, y, z) == I(x, y, z)
  {
  }

  method Round1(a0: Word, b0: Word, c0: Word, d0: Word, x: seq<Word>, ghost start: Chain) returns (a: Word, b: Word, c: Word, d: Word)
    requires |x| == 16 && Chain(a0, b0, c0, d0) == Steps(start, x, 0)
    ensures Chain(a, b, c, d) == Steps(start, x, 16)
  {
    hide Mix, F, G, H, I, T, Steps, WordIndex, Shift, RoundFunction;
    Table1();
    a, b, c, d := a0, b0, c0, d0;
    a := Mix(a, F(b, c, d), x[0], T(0), 7, b);
    d := Mix(d, F(a, b, c), x[1], T(1), 12, a);
    c := Mix(c, F(d, a, b), x[2], T(2), 17, d);
    b := Mix(b, F(c, d, a), x[3], T(3), 22, c);
    assert Chain(a, b, c, d) == Steps(start, x, 4) by {
      FourSteps(start, x, 0);
    }
    a := Mix(a, F(b, c, d), x[4], T(4), 7, b);
    d := Mix(d, F(a, b, c), x[5], T(5), 12, a);
    c := Mix(c, F(d, a, b), x[6], T(6), 17, d);
    b := Mix(b, F(c, d, a), x[7], T(7), 22, c);
    assert Chain(a, b, c, d) == Steps(start, x, 8) by {
      FourSteps(start, x, 4);
    }
    a := Mix(a, F(b, c, d), x[8], T(8), 7, b);
    d := Mix(d, F(a, b, c), x[9], T(9), 12, a);
    c := Mix(c, F(d, a, b), x[10], T(10), 17, d);
    b := Mix(b, F(c, d, a), x[11], T(11), 22, c);
    assert Chain(a, b, c, d) == Steps(start, x, 12) by {
      FourSteps(start, x, 8);
    }
    a := Mix(a, F(b, c, d), x[12], T(12), 7, b);
    d := Mix(d, F(a, b, c), x[13], T(13), 12, a);
    c := Mix(c, F(d, a, b), x[14], T(14), 17, d);
    b := Mix(b, F(c, d, a), x[15], T(15), 22, c);
    assert Chain(a, b, c, d) == Steps(start, x, 16) by {
      FourSteps(start, x, 12);
    }
  }

  method Round2(a0: Word, b0: Word, c0: Word, d0: Word, x: seq<Word>, ghost start: Chain) returns (a: Word, b: Word, c: Word, d: Word)
    requires |x| == 16 && Chain(a0, b0, c0, d0) == Steps(start, x, 16)
    ensures Chain(a, b, c, d) == Steps(start, x, 32)
  {
    hide Mix, F, G, H, I, T, Steps, WordIndex, Shift, RoundFunction;
    Table2();
    a, b, c, d := a0, b0, c0, d0;
    a := Mix(a, G(b, c, d), x[1], T(16), 5, b);
    d := Mix(d, G(a, b, c), x[6], T(17), 9, a);
    c := Mix(c, G(d, a, b), x[11], T(18), 14, d);
    b := Mix(b, G(c, d, a), x[0], T(19), 20, c);
    assert Chain(a, b, c, d) == Steps(start, x, 20) by {
      FourSteps(start, x, 16);
    }
    a := Mix(a, G(b, c, d), x[5], T(20), 5, b);
    d := Mix(d, G(a, b, c), x[10], T(21), 9, a);
    c := Mix(c, G(d, a, b), x[15], T(22), 14, d);
    b := Mix(b, G(c, d, a), x[4], T(23), 20, c);
    assert Chain(a, b, c, d) == Steps(start, x, 24) by {
      FourSteps(start, x, 20);
    }
    a := Mix(a, G(b, c, d), x[9], T(24), 5, b);
    d := Mix(d, G(a, b, c), x[14], T(25), 9, a);
    c := Mix(c, G(d, a, b), x[3], T(26), 14, d);
    b := Mix(b, G(c, d, a), x[8], T(27), 20, c);
    assert Chain(a, b, c, d) == Steps(start, x, 28) by {
      FourSteps(start, x, 24);
    }
    a := Mix(a, G(b, c, d), x[13], T(28), 5, b);
    d := Mix(d, G(a, b, c), x[2], T(29), 9, a);
    c := Mix(c, G(d, a, b), x[7], T(30), 14, d);
    b := Mix(b, G(c, d, a), x[12], T(31), 20, c);
    assert Chain(a, b, c, d) == Steps(start, x, 32) by {
      FourSteps(start, x, 28);
    }
  }

  method Round3(a0: Word, b0: Word, c0: Word, d0: Word, x: seq<Word>, ghost start: Chain) returns (a: Word, b: Word, c: Word, d: Word)
    requires |x| == 16 && Chain(a0, b0, c0, d0) == Steps(start, x, 32)
    ensures Chain(a, b, c, d) == Steps(start, x, 48)
  {
    hide Mix, F, G, H, I, T, Steps, WordIndex, Shift, RoundFunction;
    Table3();
    a, b, c, d := a0, b0, c0, d0;
    a := Mix(a, H(b, c, d), x[5], T(32), 4, b);
    d := Mix(d, H(a, b, c), x[8], T(33), 11, a);
    c := Mix(c, H(d, a, b), x[11], T(34), 16, d);
    b := Mix(b, H(c, d, a), x[14], T(35), 23, c);
    assert Chain(a, b, c, d) == Steps(start, x, 36) by {
      FourSteps(start, x, 32);
    }
    a := Mix(a, H(b, c, d), x[1], T(36), 4, b);
    d := Mix(d, H(a, b, c), x[4], T(37), 11, a);
    c := Mix(c, H(d, a, b), x[7], T(38), 16, d);
    b := Mix(b, H(c, d, a), x[10], T(39), 23, c);
    assert Chain(a, b, c, d) == Steps(start, x, 40) by {
      FourSteps(start, x, 36);
    }
    a := Mix(a, H(b, c, d), x[13], T(40), 4, b);
    d := Mix(d, H(a, b, c), x[0], T(41), 11, a);
    c := Mix(c, H(d, a, b), x[3], T(42), 16, d);
    b := Mix(b, H(c, d, a), x[6], T(43), 23, c);
    assert Chain(a, b, c, d) == Steps(start, x, 44) by {
      FourSteps(start, x, 40);
    }
    a := Mix(a, H(b, c, d), x[9], T(44), 4, b);
    d := Mix(d, H(a, b, c), x[12], T(45), 11, a);
    c := Mix(c, H(d, a, b), x[15], T(46), 16, d);
    b := Mix(b, H(c, d, a), x[2], T(47), 23, c);
    assert Chain(a, b, c, d) == Steps(start, x, 48) by {
      FourSteps(start, x, 44);
    }
  }

  method Round4(a0: Word, b0: Word, c0: Word, d0: Word, x: seq<Word>, ghost start: Chain) returns (a: Word, b: Word, c: Word, d: Word)
    requires |x| == 16 && Chain(a0, b0, c0, d0) == Steps(start, x, 48)
    ensures Chain(a, b, c, d) == Steps(start, x, 64)
  {
    hide Mix, F, G, H, I, T, Steps, WordIndex, Shift, RoundFunction;
    Table4();
    a, b, c, d := a0, b0, c0, d0;
    a := Mix(a, I(b, c, d), x[0], T(48), 6, b);
    d := Mix(d, I(a, b, c), x[7], T(49), 10, a);
    c := Mix(c, I(d, a, b), x[14], T(50), 15, d);
    b := Mix(b, I(c, d, a), x[5], T(51), 21, c);
    assert Chain(a, b, c, d) == Steps(start, x, 52) by {
      FourSteps(start, x, 48);
    }
    a := Mix(a, I(b, c, d), x[12], T(52), 6, b);
    d := Mix(d, I(a, b, c), x[3], T(53), 10, a);
    c := Mix(c, I(d, a, b), x[10], T(54), 15, d);
    b := Mix(b, I(c, d, a), x[1], T(55), 21, c);
    assert Chain(a, b, c, d) == Steps(start, x, 56) by {
      FourSteps(start, x, 52);
    }
    a := Mix(a, I(b, c, d), x[8], T(56), 6, b);
    d := Mix(d, I(a, b, c), x[15], T(57), 10, a);
    c := Mix(c, I(d, a, b), x[6], T(58), 15, d);
    b := Mix(b, I(c, d, a), x[13], T(59), 21, c);
    assert Chain(a, b, c, d) == Steps(start, x, 60) by {
      FourSteps(start, x, 56);
    }
    a := Mix(a, I(b, c, d), x[4], T(60), 6, b);
    d := Mix(d, I(a, b, c), x[11], T(61), 10, a);
    c := Mix(c, I(d, a, b), x[2], T(62), 15, d);
    b := Mix(b, I(c, d, a), x[9], T(63), 21, c);
    assert Chain(a, b, c, d) == Steps(start, x, 64) by {
      FourSteps(start, x, 60);
    }
  }

  function CountBytes(count0: nat, count1: nat): seq<byte>
    requires count0 < WORD && count1 < WORD
  {
    LittleEndian(count0) + LittleEndian(count1)
  }

  /** The count words hold a number of bits modulo 2^64. */
  ghost predicate Counts(count0: nat, count1: nat, bits: nat) {
    count0 < WORD && count1 < WORD && count1 * WORD + count0 == bits % (WORD * WORD)
  }

  lemma AtLeastOne(k: int, unit: int)
    requires unit >= 0
    ensures k >= 1 ==> k * unit >= unit
    ensures k <= -1 ==> k * unit <= -unit
  {
    if k >= 1 {
      assert k * unit == (k - 1) * unit + unit;
    } else if k <= -1 {
      assert k * unit == (k + 1) * unit - unit;
      assert (-k - 1) * unit >= 0;
    }
  }

  lemma DivideExactly(q: nat, r: nat, unit: nat)
    requires r < unit
    ensures (q * unit + r) / unit == q && (q * unit + r) % unit == r
  {
    var n := q * unit + r;
    var d := n / unit;
    assert n == d * unit + n % unit;
    assert (d - q) * unit == d * unit - q * unit;
    AtLeastOne(d - q, unit);
  }

  /** Byte of a number in its low word: `unit` is the byte's weight, `rest` the weight of the word above it. */
  lemma LowByte(high: nat, w: nat, unit: nat, rest: nat)
    requires unit > 0
    ensures (high * (rest * 0x100) * unit + w) / unit % 0x100 == w / unit % 0x100
  {
    var q, r := w / unit, w % unit;
    var h := high * rest;
    assert high * (rest * 0x100) * unit + w == (h * 0x100 + q) * unit + r by {
      assert high * (rest * 0x100) == h * 0x100;
    }
    DivideExactly(h * 0x100 + q, r, unit);
    var s, t := q / 0x100, q % 0x100;
    assert h * 0x100 + q == (h + s) * 0x100 + t;
    DivideExactly(h + s, t, 0x100);
  }

  lemma LowBytes(bits: nat, w: nat)
    requires w == bits % WORD
    ensures w % 0x100 == bits % 0x100
    ensures w / 0x100 % 0x100 == bits / 0x100 % 0x100
    ensures w / 0x1_0000 % 0x100 == bits / 0x1_0000 % 0x100
    ensures w / 0x100_0000 % 0x100 == bits / 0x100_0000 % 0x100
  {
    var q := bits / WORD;
    assert bits == q * WORD + w;
    LowByte(q, w, 1, 0x100_0000);
    LowByte(q, w, 0x100, 0x1_0000);
    LowByte(q, w, 0x1_0000, 0x100);
    LowByte(q, w, 0x100_0000, 1);
  }

  lemma TopByte(w: nat)
    requires w < WORD
    ensures w / 0x100_0000 % 0x100 == w / 0x100_0000
  {
  }

  lemma HighBytes(bits: nat, high: nat)
    requires high == bits / WORD
    ensures high % 0x100 == bits / 0x1_0000_0000 % 0x100
    ensures high / 0x100 == bits / 0x100_0000_0000
    ensures high / 0x1_0000 == bits / 0x1_0000_0000_0000
    ensures high / 0x100_0000 == bits / 0x100_0000_0000_0000
  {
  }

  lemma CountWords(count0: nat, count1: nat, bits: nat)
    requires Counts(count0, count1, bits)
    ensures count0 == bits % WORD && count1 == bits / WORD % WORD
  {
    var q := bits / (WORD * WORD);
    assert bits == (q * WORD + count1) * WORD + count0;
    DivideExactly(q * WORD + count1, count0, WORD);
    DivideExactly(q, count1, WORD);
  }

  /** The words of the count are the low 64 bits of the length, which the RFC appends to the message. */
  lemma CountIsLength(count0: nat, count1: nat, bits: nat)
    requires Counts(count0, count1, bits)
    ensures count0 < WORD && count1 < WORD && CountBytes(count0, count1) == LengthBytes(bits)
  {
    CountWords(count0, count1, bits);
    LowBytes(bits, count0);
    LowBytes(bits / WORD, count1);
    HighBytes(bits, bits / WORD);
    TopByte(count0);
    TopByte(count1);
  }

  lemma CarriedSum(x: nat, y: nat)
    requires x < WORD && y < WORD
    ensures x + y == (if (x + y) % WORD < y then WORD else 0) + (x + y) % WORD
  {
  }

  lemma WordsOf(high: nat, low: nat, q: nat)
    requires low < WORD
    ensures Counts(low, high % WORD, q * (WORD * WORD) + high * WORD + low)
  {
    var r, h := high / WORD, high % WORD;
    assert q * (WORD * WORD) + high * WORD + low == (q + r) * (WORD * WORD) + (h * WORD + low);
    DivideExactly(q + r, h * WORD + low, WORD * WORD);
  }

  lemma AddOneLater(n: nat)
    ensures (n % WORD + 1) % WORD == (n + 1) % WORD
  {
    var q, r := n / WORD, n % WORD;
    if r + 1 < WORD {
      DivideExactly(q, r + 1, WORD);
    } else {
      DivideExactly(q + 1, 0, WORD);
    }
  }

  /** Adding a length to the count: the low word's carry goes to the high word. */
  lemma CountGrows(count0: nat, count1: nat, bits: nat, nbytes: nat)
    requires Counts(count0, count1, bits)
    ensures var nbits, low := 8 * nbytes % WORD, (count0 + 8 * nbytes % WORD) % WORD;
      Counts(low, (count1 + nbytes / 0x2000_0000 + if low < nbits then 1 else 0) % WORD, bits + 8 * nbytes)
  {
    var nbits := 8 * nbytes % WORD;
    var low := (count0 + nbits) % WORD;
    var carry := if low < nbits then 1 else 0;
    CarriedSum(count0, nbits);
    assert 8 * nbytes == nbytes / 0x2000_0000 * WORD + nbits;
    var high := count1 + nbytes / 0x2000_0000 + carry;
    var q := bits / (WORD * WORD);
    assert bits == q * (WORD * WORD) + count1 * WORD + count0;
    assert bits + 8 * nbytes == q * (WORD * WORD) + high * WORD + low;
    WordsOf(high, low, q);
  }

  /** The bytes behind the last whole block. */
  function Tail(m: seq<byte>): (t: seq<byte>)
    ensures |t| == |m| % BLOCK
  {
    m[|m| - |m| % BLOCK..]
  }

  lemma WholeAndTail(m: seq<byte>) returns (whole: seq<byte>)
    ensures |whole| % BLOCK == 0 && m == whole + Tail(m)
    ensures Blocks(INIT, m) == Blocks(INIT, whole)
  {
    whole := m[..|m| - |m| % BLOCK];
    TailIgnored(INIT, whole, Tail(m));
  }

  lemma OffsetOfCount(count0: nat, count1: nat, n: nat)
    requires Counts(count0, count1, 8 * n)
    ensures count0 / 8 % BLOCK == n % BLOCK
  {
    CountWords(count0, count1, 8 * n);
    var q := 8 * n / WORD;
    EighthOf(n, q, count0);
    SkipBlocks(count0 / 8, q * 0x80_0000);
    hide Counts;
  }

  lemma EighthOf(n: nat, q: nat, c: nat)
    requires 8 * n == q * WORD + c
    ensures n == c / 8 + BLOCK * (q * 0x80_0000)
  {
  }

  class Md5State {
    var count0: nat
    var count1: nat
    var abcd: Chain
    const buf: array<byte>

    /** The state after the bytes `m`: their whole blocks are in the registers, the others in the buffer. */
    ghost predicate Holds(m: seq<byte>)
      reads this, buf
    {
      && buf.Length == BLOCK
      && Counts(count0, count1, 8 * |m|)
      && abcd == Blocks(INIT, m)
      && buf[..|m| % BLOCK] == Tail(m)
    }

    constructor ()
      ensures Holds([]) && fresh(buf)
    {
      count0, count1 := 0, 0;
      abcd := INIT;
      buf := new byte[BLOCK];
    }

    method Process(data: seq<byte>)
      requires |data| == BLOCK
      modifies this`abcd
      ensures abcd == Compress(old(abcd), data)
    {
      hide Steps;
      var x: seq<Word> := [];
      for i := 0 to 16
        invariant |x| == i && forall k :: 0 <= k < i ==> x[k] == WordAt(data, k)
      {
        x := x + [WordAt(data, i)];
      }
      assert x == Words(data);
      ghost var start := abcd;
      assert Steps(start, x, 0) == start by { NoSteps(start, x); }
      var a, b, c, d := Round1(abcd.a, abcd.b, abcd.c, abcd.d, x, start);
      a, b, c, d := Round2(a, b, c, d, x, start);
      a, b, c, d := Round3(a, b, c, d, x, start);
      a, b, c, d := Round4(a, b, c, d, x, start);
      abcd := Chain(Plus(abcd.a, a), Plus(abcd.b, b), Plus(abcd.c, c), Plus(abcd.d, d));
    }

    /** Copies bytes into the buffer. */
    method Store(offset: nat, data: seq<byte>)
      requires offset + |data| <= buf.Length
      modifies buf
      ensures buf[..] == old(buf[..offset]) + data + old(buf[offset + |data|..])
    {
      forall i | 0 <= i < |data| {
        buf[offset + i] := data[i];
      }
    }

    method AddLength(nbytes: nat, ghost bits: nat)
      requires Counts(count0, count1, bits)
      modifies this`count0, this`count1
      ensures Counts(count0, count1, bits + 8 * nbytes)
    {
      hide Counts;
      CountGrows(count0, count1, bits, nbytes);
      var nbits := 8 * nbytes % WORD;
      AddOneLater(count1 + nbytes / 0x2000_0000);
      count1 := (count1 + nbytes / 0x2000_0000) % WORD;
      count0 := (count0 + nbits) % WORD;
      if count0 < nbits {
        count1 := (count1 + 1) % WORD;
      }
    }

    /** Adds bytes to the partial block in the buffer, and processes it if it becomes whole. */
    method FillBlock(offset: nat, data: seq<byte>, ghost m: seq<byte>) returns (copy: nat)
      requires buf.Length == BLOCK && abcd == Blocks(INIT, m) && buf[..|m| % BLOCK] == Tail(m)
      requires offset == |m| % BLOCK && data != []
      modifies this`abcd, buf
      ensures copy == if offset + |data| > BLOCK then BLOCK - offset else |data|
      ensures abcd == Blocks(INIT, m + data[..copy])
      ensures if offset + copy < BLOCK then buf[..offset + copy] == Tail(m + data) && copy == |data| else (|m| + copy) % BLOCK == 0
    {
      hide Blocks, Tail, INIT, Compress;
      copy := if offset + |data| > BLOCK then BLOCK - offset else |data|;
      Store(offset, data[..copy]);
      if offset + copy < BLOCK {
        assert data[..copy] == data;
        StillPartial(m, data);
        return;
      }
      NowWhole(m, data[..copy]);
      assert buf[..] == Tail(m) + data[..copy];
      Process(buf[..]);
    }

    /** Processes whole blocks and keeps the rest in the buffer. */
    method TakeBlocks(data: seq<byte>, p0: nat, ghost m: seq<byte>)
      requires buf.Length == BLOCK && p0 <= |data| && (|m| + p0) % BLOCK == 0 && abcd == Blocks(INIT, m + data[..p0])
      modifies this`abcd, buf
      ensures abcd == Blocks(INIT, m + data) && buf[..|m + data| % BLOCK] == Tail(m + data)
    {
      hide Blocks, Tail, Compress;
      var p := p0;
      ghost var whole := m + data[..p];
      while |data| - p >= BLOCK
        invariant p <= |data| && whole == m + data[..p] && |whole| % BLOCK == 0
        invariant abcd == Blocks(INIT, whole)
      {
        var block := data[p..p + BLOCK];
        OneMoreBlock(INIT, whole, block);
        assert whole + block == m + data[..p + BLOCK];
        SkipBlocks(|whole|, 1);
        whole := whole + block;
        Process(block);
        p := p + BLOCK;
      }
      assert whole + data[p..] == m + data;
      TailIgnored(INIT, whole, data[p..]);
      OnlyTail(whole, data[p..]);
      if |data| - p > 0 {
        Store(0, data[p..]);
      }
    }

    /** Adds bytes to the message, in pieces of any size. */
    method Append(data: seq<byte>, ghost m: seq<byte>)
      requires Holds(m) && |data| < 0x8000_0000
      modifies this`count0, this`count1, this`abcd, buf
      ensures Holds(m + data)
    {
      hide Blocks, Counts, Tail;
      var offset := count0 / 8 % BLOCK;
      OffsetOfCount(count0, count1, |m|);
      if |data| == 0 {
        assert m + data == m;
        return;
      }
      AddLength(|data|, 8 * |m|);
      var p := 0;
      assert m + data[..0] == m;
      if offset != 0 {
        p := FillBlock(offset, data, m);
        if offset + p < BLOCK {
          PartialLength(|m|, p);
          assert m + data[..p] == m + data;
          return;
        }
      }
      TakeBlocks(data, p, m);
    }

    /** Pads the message, appends its length, and returns the digest. */
    method Finish(ghost m: seq<byte>) returns (digest: seq<byte>)
      requires Holds(m)
      modifies this`count0, this`count1, this`abcd, buf
      ensures digest == Digest(m)
    {
      hide Counts, Blocks, CountBytes, LengthBytes;
      CountIsLength(count0, count1, 8 * |m|);
      var data := LengthNow();
      OffsetOfCount(count0, count1, |m|);
      var pad := (55 - count0 / 8) % BLOCK + 1;
      PadLength(count0 / 8, |m|);
      Append([0x80] + Zeros(pad - 1), m);
      Append(data, m + ([0x80] + Zeros(pad - 1)));
      assert m + ([0x80] + Zeros(pad - 1)) + data == Padded(m);
      digest := WordBytes(abcd.a) + WordBytes(abcd.b) + WordBytes(abcd.c) + WordBytes(abcd.d);
    }

    method LengthNow() returns (data: seq<byte>)
      requires count0 < WORD && count1 < WORD
      ensures data == CountBytes(count0, count1)
    {
      data := [];
      for i := 0 to 8
        invariant |data| == i && forall k :: 0 <= k < i ==> data[k] == ByteOf(if k < 4 then count0 else count1, k % 4)
      {
        data := data + [ByteOf(if i / 4 == 0 then count0 else count1, i % 4)];
      }
    }
  }

  lemma PadLength(k: nat, n: nat)
    requires k % BLOCK == n % BLOCK
    ensures (55 - k) % BLOCK == PaddingZeros(n)
  {
    var r := n % BLOCK;
    assert 55 - k == (55 - r) + BLOCK * -(k / BLOCK);
    assert 55 - n == (55 - r) + BLOCK * -(n / BLOCK);
    SkipBlocks(55 - r, -(k / BLOCK));
    SkipBlocks(55 - r, -(n / BLOCK));
  }

  /** However a message was cut into pieces, the state is the same. */
  lemma PiecesDoNotMatter(s: Md5State, t: Md5State, m: seq<byte>)
    requires s.Holds(m) && t.Holds(m)
    ensures s.abcd == t.abcd && s.count0 == t.count0 && s.count1 == t.count1
    ensures s.buf[..|m| % BLOCK] == t.buf[..|m| % BLOCK]
  {
    hide Blocks;
    CountWords(s.count0, s.count1, 8 * |m|);
    CountWords(t.count0, t.count1, 8 * |m|);
  }

  /** The digest of a string, computed in one piece. */
  method DigestOf(m: seq<byte>) returns (digest: seq<byte>)
    requires |m| < 0x8000_0000
    ensures digest == Digest(m)
  {
    hide Digest;
    var state := new Md5State();
    state.Append(m, []);
    assert [] + m == m;
    digest := state.Finish(m);
  }

  lemma PartialLength(n: nat, k: nat)
    requires n % BLOCK + k < BLOCK
    ensures (n + k) % BLOCK == n % BLOCK + k
  {
  }

  lemma OnlyTail(whole: seq<byte>, tail: seq<byte>)
    requires |whole| % BLOCK == 0 && |tail| < BLOCK
    ensures Tail(whole + tail) == tail && |whole + tail| % BLOCK == |tail|
  {
    var n := |whole| / BLOCK;
    assert |whole + tail| == n * BLOCK + |tail|;
  }

  lemma TailGrows(whole: seq<byte>, tail: seq<byte>, data: seq<byte>)
    requires |whole| % BLOCK == 0 && |tail| + |data| < BLOCK
    ensures var more := whole + tail + data;
      Tail(more) == tail + data && Blocks(INIT, more) == Blocks(INIT, whole)
  {
    hide Blocks, Tail;
    TailIgnored(INIT, whole, tail + data);
    OnlyTail(whole, tail + data);
    assert whole + tail + data == whole + (tail + data);
  }

  lemma StillPartial(m: seq<byte>, data: seq<byte>)
    requires |Tail(m)| + |data| < BLOCK
    ensures Tail(m + data) == Tail(m) + data && Blocks(INIT, m + data) == Blocks(INIT, m)
  {
    hide *;
    var whole := WholeAndTail(m);
    TailGrows(whole, Tail(m), data);
  }

  lemma NowWhole(m: seq<byte>, data: seq<byte>)
    requires |m| % BLOCK + |data| == BLOCK
    ensures Blocks(INIT, m + data) == Compress(Blocks(INIT, m), Tail(m) + data) && |m + data| % BLOCK == 0
  {
    hide Blocks, Compress;
    var whole := WholeAndTail(m);
    assert m + data == whole + (Tail(m) + data);
    OneMoreBlock(INIT, whole, Tail(m) + data);
  }

  lemma NoSteps(start: Chain, x: seq<Word>)
    requires |x| == 16
    ensures Steps(start, x, 0) == start
  {
  }
}
