/** Known answers: bytes that standards or the source fix, against which the functions that both sides of a proof share are checked. */
module KnownAnswers {
  import opened Bytes
  import opened Md5Spec
  import Base64
  import Command
  import ConfFile
  import Crc
  import Tea

  /** The only block of the empty message. */
  predicate IsEmptyBlock(x: seq<Word>) {
    |x| == 16 && x[0] == Word(0x80) && forall k :: 0 < k < 16 ==> x[k] == Word(0)
  }

  /** One step computes one register and turns all four. */
  lemma Next(x: seq<Word>, n: nat, r: Chain, b: bv32) returns (next: Chain)
    requires |x| == 16 && n < 64 && Steps(INIT, x, n) == r
    requires Mix(r.a, RoundFunction(n, r.b, r.c, r.d), x[WordIndex(n)], T(n), Shift(n), r.b) == Word(b)
    ensures next == Chain(r.d, Word(b), r.b, r.c) && Steps(INIT, x, n + 1) == next
  {
    hide Mix, RoundFunction, WordIndex, T, Shift;
    next := Chain(r.d, Word(b), r.b, r.c);
  }

  lemma Steps1To8(x: seq<Word>)
    requires IsEmptyBlock(x) && Steps(INIT, x, 0) == Chain(Word(0x67452301), Word(0xefcdab89), Word(0x98badcfe), Word(0x10325476))
    ensures Steps(INIT, x, 8) == Chain(Word(0x32033344), Word(0x9bc13ce9), Word(0xf5b158db), Word(0x2f35d494))
  {
    hide Steps;
    var r := Chain(Word(0x67452301), Word(0xefcdab89), Word(0x98badcfe), Word(0x10325476));
    r := Next(x, 0, r, 0xa5202774);
    r := Next(x, 1, r, 0xf59592dd);
    r := Next(x, 2, r, 0xe7f06b23);
    r := Next(x, 3, r, 0x1b163203);
    r := Next(x, 4, r, 0x32033344);
    r := Next(x, 5, r, 0x2f35d494);
    r := Next(x, 6, r, 0xf5b158db);
    r := Next(x, 7, r, 0x9bc13ce9);
  }

  lemma Steps9To16(x: seq<Word>)
    requires IsEmptyBlock(x) && Steps(INIT, x, 8) == Chain(Word(0x32033344), Word(0x9bc13ce9), Word(0xf5b158db), Word(0x2f35d494))
    ensures Steps(INIT, x, 16) == Chain(Word(0xf56c7cf1), Word(0xd6819c6a), Word(0x5aa53f75), Word(0x374943a7))
  {
    hide Steps;
    var r := Chain(Word(0x32033344), Word(0x9bc13ce9), Word(0xf5b158db), Word(0x2f35d494));
    r := Next(x, 8, r, 0x3893b991);
    r := Next(x, 9, r, 0xfce4a312);
    r := Next(x, 10, r, 0xe1ef0576);
    r := Next(x, 11, r, 0x70768a29);
    r := Next(x, 12, r, 0xf56c7cf1);
    r := Next(x, 13, r, 0x374943a7);
    r := Next(x, 14, r, 0x5aa53f75);
    r := Next(x, 15, r, 0xd6819c6a);
  }

  lemma Steps17To24(x: seq<Word>)
    requires IsEmptyBlock(x) && Steps(INIT, x, 16) == Chain(Word(0xf56c7cf1), Word(0xd6819c6a), Word(0x5aa53f75), Word(0x374943a7))
    ensures Steps(INIT, x, 24) == Chain(Word(0x3d1e3e6c), Word(0xe422531a), Word(0xeb41643e), Word(0x68b7b3e3))
  {
    hide Steps;
    var r := Chain(Word(0xf56c7cf1), Word(0xd6819c6a), Word(0x5aa53f75), Word(0x374943a7));
    r := Next(x, 16, r, 0x1c7d7513);
    r := Next(x, 17, r, 0x7bd57a3a);
    r := Next(x, 18, r, 0xc095f13a);
    r := Next(x, 19, r, 0xbd782e17);
    r := Next(x, 20, r, 0x3d1e3e6c);
    r := Next(x, 21, r, 0x68b7b3e3);
    r := Next(x, 22, r, 0xeb41643e);
    r := Next(x, 23, r, 0xe422531a);
  }

  lemma Steps25To32(x: seq<Word>)
    requires IsEmptyBlock(x) && Steps(INIT, x, 24) == Chain(Word(0x3d1e3e6c), Word(0xe422531a), Word(0xeb41643e), Word(0x68b7b3e3))
    ensures Steps(INIT, x, 32) == Chain(Word(0x13707036), Word(0xa2205f1f), Word(0x1c31c384), Word(0xae7813db))
  {
    hide Steps;
    var r := Chain(Word(0x3d1e3e6c), Word(0xe422531a), Word(0xeb41643e), Word(0x68b7b3e3));
    r := Next(x, 24, r, 0x306ec122);
    r := Next(x, 25, r, 0xd28c77c2);
    r := Next(x, 26, r, 0xa3c663da);
    r := Next(x, 27, r, 0xa0572807);
    r := Next(x, 28, r, 0x13707036);
    r := Next(x, 29, r, 0xae7813db);
    r := Next(x, 30, r, 0x1c31c384);
    r := Next(x, 31, r, 0xa2205f1f);
  }

  lemma Steps33To40(x: seq<Word>)
    requires IsEmptyBlock(x) && Steps(INIT, x, 32) == Chain(Word(0x13707036), Word(0xa2205f1f), Word(0x1c31c384), Word(0xae7813db))
    ensures Steps(INIT, x, 40) == Chain(Word(0x5f7a9b2e), Word(0xc5dc8c15), Word(0x91ca4cb7), Word(0xabc34e16))
  {
    hide Steps;
    var r := Chain(Word(0x13707036), Word(0xa2205f1f), Word(0x1c31c384), Word(0xae7813db));
    r := Next(x, 32, r, 0xdf63eaa1);
    r := Next(x, 33, r, 0xc3689f5b);
    r := Next(x, 34, r, 0x12f3e755);
    r := Next(x, 35, r, 0x004b6669);
    r := Next(x, 36, r, 0x5f7a9b2e);
    r := Next(x, 37, r, 0xabc34e16);
    r := Next(x, 38, r, 0x91ca4cb7);
    r := Next(x, 39, r, 0xc5dc8c15);
  }

  lemma Steps41To48(x: seq<Word>)
    requires IsEmptyBlock(x) && Steps(INIT, x, 40) == Chain(Word(0x5f7a9b2e), Word(0xc5dc8c15), Word(0x91ca4cb7), Word(0xabc34e16))
    ensures Steps(INIT, x, 48) == Chain(Word(0x3f55edfd), Word(0xca7d2dbd), Word(0x68d84ea2), Word(0x22a31f54))
  {
    hide Steps;
    var r := Chain(Word(0x5f7a9b2e), Word(0xc5dc8c15), Word(0x91ca4cb7), Word(0xabc34e16));
    r := Next(x, 40, r, 0x4497169d);
    r := Next(x, 41, r, 0x76fd93d4);
    r := Next(x, 42, r, 0xfd95f243);
    r := Next(x, 43, r, 0x0fe32453);
    r := Next(x, 44, r, 0x3f55edfd);
    r := Next(x, 45, r, 0x22a31f54);
    r := Next(x, 46, r, 0x68d84ea2);
    r := Next(x, 47, r, 0xca7d2dbd);
  }

  lemma Steps49To56(x: seq<Word>)
    requires IsEmptyBlock(x) && Steps(INIT, x, 48) == Chain(Word(0x3f55edfd), Word(0xca7d2dbd), Word(0x68d84ea2), Word(0x22a31f54))
    ensures Steps(INIT, x, 56) == Chain(Word(0x5625a114), Word(0x1e77fa61), Word(0x392ad0d0), Word(0x3450f42b))
  {
    hide Steps;
    var r := Chain(Word(0x3f55edfd), Word(0xca7d2dbd), Word(0x68d84ea2), Word(0x22a31f54));
    r := Next(x, 48, r, 0x93aa2577);
    r := Next(x, 49, r, 0x1688dc85);
    r := Next(x, 50, r, 0xcd85b8cb);
    r := Next(x, 51, r, 0x561e0689);
    r := Next(x, 52, r, 0x5625a114);
    r := Next(x, 53, r, 0x3450f42b);
    r := Next(x, 54, r, 0x392ad0d0);
    r := Next(x, 55, r, 0x1e77fa61);
  }

  lemma Steps57To64(x: seq<Word>)
    requires IsEmptyBlock(x) && Steps(INIT, x, 56) == Chain(Word(0x5625a114), Word(0x1e77fa61), Word(0x392ad0d0), Word(0x3450f42b))
    ensures Steps(INIT, x, 64) == Chain(Word(0x7246fad3), Word(0x14e45506), Word(0xff4ea3eb), Word(0x6e10a476))
  {
    hide Steps;
    var r := Chain(Word(0x5625a114), Word(0x1e77fa61), Word(0x392ad0d0), Word(0x3450f42b));
    r := Next(x, 56, r, 0x474a9c8c);
    r := Next(x, 57, r, 0xdfce00bc);
    r := Next(x, 58, r, 0x36594b14);
    r := Next(x, 59, r, 0x30130182);
    r := Next(x, 60, r, 0x7246fad3);
    r := Next(x, 61, r, 0x6e10a476);
    r := Next(x, 62, r, 0xff4ea3eb);
    r := Next(x, 63, r, 0x14e45506);
  }

  lemma EmptySteps(x: seq<Word>)
    requires IsEmptyBlock(x)
    ensures Steps(INIT, x, 64) == Chain(Word(0x7246fad3), Word(0x14e45506), Word(0xff4ea3eb), Word(0x6e10a476))
  {
    assert Steps(INIT, x, 0) == INIT;
    hide Steps, IsEmptyBlock;
    Steps1To8(x);
    Steps9To16(x);
    Steps17To24(x);
    Steps25To32(x);
    Steps33To40(x);
    Steps41To48(x);
    Steps49To56(x);
    Steps57To64(x);
  }

  lemma PaddedEmpty()
    ensures |Padded([])| == BLOCK && Padded([])[0] == 0x80 && forall k :: 0 < k < BLOCK ==> Padded([])[k] == 0
  {
    assert PaddingZeros(0) == 55;
    assert LengthBytes(0) == [0, 0, 0, 0, 0, 0, 0, 0];
  }

  lemma WordOfBytesAt(block: seq<byte>, k: nat, low: byte)
    requires |block| == BLOCK && k < 16 && block[4 * k] == low && block[4 * k + 1] == 0 && block[4 * k + 2] == 0 && block[4 * k + 3] == 0
    ensures WordAt(block, k) == Word(low as int as bv32)
  {
  }

  lemma WordsOfEmpty(block: seq<byte>)
    requires |block| == BLOCK && block[0] == 0x80 && forall k :: 0 < k < BLOCK ==> block[k] == 0
    ensures IsEmptyBlock(Words(block))
  {
    hide WordAt;
    WordOfBytesAt(block, 0, 0x80);
    forall k | 0 < k < 16
      ensures Words(block)[k] == Word(0)
    {
      WordOfBytesAt(block, k, 0);
    }
  }

  lemma CompressedEmpty(block: seq<byte>)
    requires |block| == BLOCK && IsEmptyBlock(Words(block))
    ensures Compress(INIT, block) == Chain(Word(0xd98c1dd4), Word(0x04b2008f), Word(0x980980e9), Word(0x7e42f8ec))
  {
    hide Steps, Words;
    EmptySteps(Words(block));
  }

  /** The digest of the empty message is the first one of the test suite in appendix A.5 of RFC 1321. */
  lemma DigestOfEmpty()
    ensures Digest([]) == [0xd4, 0x1d, 0x8c, 0xd9, 0x8f, 0x00, 0xb2, 0x04, 0xe9, 0x80, 0x09, 0x98, 0xec, 0xf8, 0x42, 0x7e]
  {
    hide Compress, Words, Padded, LittleEndian;
    var block := Padded([]);
    PaddedEmpty();
    WordsOfEmpty(block);
    CompressedEmpty(block);
    assert block[..BLOCK] == block && block[BLOCK..] == [];
    assert Blocks(INIT, block) == Compress(INIT, block);
    assert LittleEndian(0xd98c1dd4) == [0xd4, 0x1d, 0x8c, 0xd9] by { BytesOfWord(0xd4, 0x1d, 0x8c, 0xd9); }
    assert LittleEndian(0x04b2008f) == [0x8f, 0x00, 0xb2, 0x04] by { BytesOfWord(0x8f, 0x00, 0xb2, 0x04); }
    assert LittleEndian(0x980980e9) == [0xe9, 0x80, 0x09, 0x98] by { BytesOfWord(0xe9, 0x80, 0x09, 0x98); }
    assert LittleEndian(0x7e42f8ec) == [0xec, 0xf8, 0x42, 0x7e] by { BytesOfWord(0xec, 0xf8, 0x42, 0x7e); }
  }

  /** One more character of the message. */
  lemma Taken(c: bv32, data: seq<Crc.Octet>, o: bv8, next: bv32)
    requires Crc.Over(0xffff_ffff, data) == c && Crc.Step8(Crc.Xor(c, o as bv32)) == next
    ensures Crc.Over(0xffff_ffff, data + [Crc.Octet(o)]) == next
  {
    hide Crc.Step8, Crc.Xor;
    assert (data + [Crc.Octet(o)])[..|data|] == data;
  }

  lemma FirstDigits() returns (data: seq<Crc.Octet>)
    ensures data == [Crc.Octet(0x31), Crc.Octet(0x32), Crc.Octet(0x33), Crc.Octet(0x34), Crc.Octet(0x35)] && Crc.Over(0xffff_ffff, data) == 0x340ac5e3
  {
    data := [];
    assert Crc.Over(0xffff_ffff, data) == 0xffff_ffff;
    hide Crc.Over;
    Taken(0xffffffff, data, 0x31, 0x7c231048);
    data := data + [Crc.Octet(0x31)];
    Taken(0x7c231048, data, 0x32, 0xb0acbb32);
    data := data + [Crc.Octet(0x32)];
    Taken(0xb0acbb32, data, 0x33, 0x77b79c2d);
    data := data + [Crc.Octet(0x33)];
    Taken(0x77b79c2d, data, 0x34, 0x641c1f5c);
    data := data + [Crc.Octet(0x34)];
    Taken(0x641c1f5c, data, 0x35, 0x340ac5e3);
    data := data + [Crc.Octet(0x35)];
  }

  /** The checksum of the nine digits is the check value that CRC-32 is catalogued with. */
  lemma ChecksumOfDigits()
    ensures Crc.Crc32([Crc.Octet(0x31), Crc.Octet(0x32), Crc.Octet(0x33), Crc.Octet(0x34), Crc.Octet(0x35), Crc.Octet(0x36), Crc.Octet(0x37), Crc.Octet(0x38), Crc.Octet(0x39)]) == 0xcbf4_3926
  {
    var data := FirstDigits();
    hide Crc.Over;
    Taken(0x340ac5e3, data, 0x36, 0xf68d2c9e);
    data := data + [Crc.Octet(0x36)];
    Taken(0xf68d2c9e, data, 0x37, 0xaffc9660);
    data := data + [Crc.Octet(0x37)];
    Taken(0xaffc9660, data, 0x38, 0x651f2550);
    data := data + [Crc.Octet(0x38)];
    Taken(0x651f2550, data, 0x39, 0x340bc6d9);
    data := data + [Crc.Octet(0x39)];
    assert data == [Crc.Octet(0x31), Crc.Octet(0x32), Crc.Octet(0x33), Crc.Octet(0x34), Crc.Octet(0x35), Crc.Octet(0x36), Crc.Octet(0x37), Crc.Octet(0x38), Crc.Octet(0x39)];
    Crc.DivideIsOver(0xffff_ffff, data);
  }

  lemma FirstHalves()
    ensures Tea.Half(0x89abcdef, 0x9e3779b9, 0x00112233, 0x44556677) == 0xfd8f826d
    ensures Tea.Half(0xfeb2c7d4, 0x9e3779b9, 0x8899aabb, 0xccddeeff) == 0x23ffe34b
  {
  }

  /** One round of the cipher on one block, worked out from the formula in Arithmetic.cpp:392-396; the second word is negative. */
  lemma FirstRound()
    ensures Tea.Round(Tea.Pair(0x01234567, 0x89abcdef), Tea.Key(0x00112233, 0x44556677, 0x8899aabb, 0xccddeeff), 1) == Tea.Pair(0xfeb2c7d4, 0xadabb13a)
  {
    hide Tea.Half;
    FirstHalves();
  }

  /** The layout of a packed header: four numbers, lowest byte first, and the flag. */
  lemma HeaderBytes()
    ensures Command.EncodeHeader(Command.Header(1, 0x0203, 7, -2, true)) == [1, 0, 0, 0, 3, 2, 0, 0, 7, 0, 0, 0, 254, 255, 255, 255, 1]
  {
    BytesOfWord(1, 0, 0, 0);
    BytesOfWord(3, 2, 0, 0);
    BytesOfWord(7, 0, 0, 0);
    BytesOfWord(254, 255, 255, 255);
    hide ByteOf;
  }

  /** The hexadecimal form has the high half of a byte first, and capital letters. */
  lemma HexOfBytes()
    ensures Tea.HexOf([0x0f, 0xa9]) == [48, 70, 65, 57]
  {
    assert [0x0f, 0xa9][1..] == [0xa9] && [0xa9][1..] == [];
  }

  /** A key of fewer than 16 bytes is filled with zeros, and its words have their lowest byte first. */
  lemma KeyOfText(cipher: seq<byte>)
    requires cipher == [1, 2, 3, 4, 5]
    ensures Tea.KeyOf(cipher) == Tea.Key(0x0403_0201, 5, 0, 0)
  {
    hide Tea.WordAt;
    var k := cipher + Zeros(11);
    WordFrom(k, 0, 1, 2, 3, 4);
    WordFrom(k, 4, 5, 0, 0, 0);
    WordFrom(k, 8, 0, 0, 0, 0);
    WordFrom(k, 12, 0, 0, 0, 0);
    assert WordOf(1, 2, 3, 4) == 0x0403_0201 && WordOf(5, 0, 0, 0) == 5 && WordOf(0, 0, 0, 0) == 0;
  }

  lemma WordFrom(s: seq<byte>, i: nat, b0: byte, b1: byte, b2: byte, b3: byte)
    requires i + 4 <= |s| && s[i] == b0 && s[i + 1] == b1 && s[i + 2] == b2 && s[i + 3] == b3
    ensures Tea.WordAt(s, i) == WordOf(b0, b1, b2, b3)
  {
    hide WordOf;
  }

  /** A setting is printed as a header with its section and a line with its key and its value. */
  lemma PrintedSetting()
    ensures ConfFile.FileOf([115, 9, 107], [118]) == [91, 115, 93, 10, 107, 61, 118, 10]
  {
    hide ConfFile.FileOf, ConfFile.Find;
    var space, key: ConfFile.Text := [115], [107];
    ConfFile.FindIn(space, ConfFile.TAB, key);
    assert space + [ConfFile.TAB] + key == [115, 9, 107];
    ConfFile.OneSetting([115, 9, 107], [118]);
  }

  /** Three of the test vectors in section 10 of RFC 4648. */
  lemma TextsOfBase64()
    ensures Base64.Base64([102]) == "Zg==" && Base64.Base64([102, 111]) == "Zm8=" && Base64.Base64([102, 111, 111]) == "Zm9v"
  {
    assert Base64.Base64([102, 111, 111][3..]) == "";
  }

  /** The length of a message is saved with its lowest byte first. */
  lemma LengthsOfMessages()
    ensures LengthBytes(0x0102_0304_0506_0708) == [8, 7, 6, 5, 4, 3, 2, 1] && LengthBytes(0x1_0000_0000_0000_0008) == [8, 0, 0, 0, 0, 0, 0, 0]
  {
  }
}
