/** The checksum of the codecs: a loop over a table of 256 words, and division one bit at a time. */
module Crc {

  const POLYNOMIAL: bv32 := 0xedb8_8320

  /** A character of the message. */
  datatype Octet = Octet(bits: bv8)

  function Xor(a: bv32, b: bv32): bv32 {
    a ^ b
  }

  predicate Odd(c: bv32) {
    c & 1 == 1
  }

  function Half(c: bv32): bv32 {
    c >> 1
  }

  /** The register after one more bit of the message, with the bits of register and polynomial reflected. */
  function TakeBit(c: bv32, bit: bool): bv32 {
    if Odd(c) != bit then Xor(Half(c), POLYNOMIAL) else Half(c)
  }

  function Divide(c: bv32, bits: seq<bool>): bv32 {
    if bits == [] then c else TakeBit(Divide(c, bits[..|bits| - 1]), bits[|bits| - 1])
  }

  /** The bits of a character, lowest first. */
  function BitsOf(o: Octet): (bits: seq<bool>)
    ensures |bits| == 8
  {
    [
      o.bits & 0x01 != 0, o.bits & 0x02 != 0, o.bits & 0x04 != 0, o.bits & 0x08 != 0,
      o.bits & 0x10 != 0, o.bits & 0x20 != 0, o.bits & 0x40 != 0, o.bits & 0x80 != 0
    ]
  }

  function MessageBits(data: seq<Octet>): seq<bool> {
    if data == [] then [] else MessageBits(data[..|data| - 1]) + BitsOf(data[|data| - 1])
  }

  /** The bit-serial checksum: a register of ones takes the message bit by bit and is complemented. */
  function Crc32(data: seq<Octet>): bv32 {
    !Divide(0xffff_ffff, MessageBits(data))
  }

  function Column(col: bv8, w0: bv32, w1: bv32, w2: bv32, w3: bv32, w4: bv32, w5: bv32, w6: bv32, w7: bv32,
                  w8: bv32, w9: bv32, wa: bv32, wb: bv32, wc: bv32, wd: bv32, we: bv32, wf: bv32): bv32 {
    if col == 0 then w0 else if col == 1 then w1 else if col == 2 then w2 else if col == 3 then w3
    else if col == 4 then w4 else if col == 5 then w5 else if col == 6 then w6 else if col == 7 then w7
    else if col == 8 then w8 else if col == 9 then w9 else if col == 10 then wa else if col == 11 then wb
    else if col == 12 then wc else if col == 13 then wd else if col == 14 then we else wf
  }

  function Row0(col: bv8): bv32 {
    Column(col,
           0x00000000, 0x77073096, 0xee0e612c, 0x990951ba, 0x076dc419, 0x706af48f, 0xe963a535, 0x9e6495a3,
           0x0edb8832, 0x79dcb8a4, 0xe0d5e91e, 0x97d2d988, 0x09b64c2b, 0x7eb17cbd, 0xe7b82d07, 0x90bf1d91)
  }

  function Row1(col: bv8): bv32 {
    Column(col,
           0x1db71064, 0x6ab020f2, 0xf3b97148, 0x84be41de, 0x1adad47d, 0x6ddde4eb, 0xf4d4b551, 0x83d385c7,
           0x136c9856, 0x646ba8c0, 0xfd62f97a, 0x8a65c9ec, 0x14015c4f, 0x63066cd9, 0xfa0f3d63, 0x8d080df5)
  }

  function Row2(col: bv8): bv32 {
    Column(col,
           0x3b6e20c8, 0x4c69105e, 0xd56041e4, 0xa2677172, 0x3c03e4d1, 0x4b04d447, 0xd20d85fd, 0xa50ab56b,
           0x35b5a8fa, 0x42b2986c, 0xdbbbc9d6, 0xacbcf940, 0x32d86ce3, 0x45df5c75, 0xdcd60dcf, 0xabd13d59)
  }

  function Row3(col: bv8): bv32 {
    Column(col,
           0x26d930ac, 0x51de003a, 0xc8d75180, 0xbfd06116, 0x21b4f4b5, 0x56b3c423, 0xcfba9599, 0xb8bda50f,
           0x2802b89e, 0x5f058808, 0xc60cd9b2, 0xb10be924, 0x2f6f7c87, 0x58684c11, 0xc1611dab, 0xb6662d3d)
  }

  function Row4(col: bv8): bv32 {
    Column(col,
           0x76dc4190, 0x01db7106, 0x98d220bc, 0xefd5102a, 0x71b18589, 0x06b6b51f, 0x9fbfe4a5, 0xe8b8d433,
           0x7807c9a2, 0x0f00f934, 0x9609a88e, 0xe10e9818, 0x7f6a0dbb, 0x086d3d2d, 0x91646c97, 0xe6635c01)
  }

  function Row5(col: bv8): bv32 {
    Column(col,
           0x6b6b51f4, 0x1c6c6162, 0x856530d8, 0xf262004e, 0x6c0695ed, 0x1b01a57b, 0x8208f4c1, 0xf50fc457,
           0x65b0d9c6, 0x12b7e950, 0x8bbeb8ea, 0xfcb9887c, 0x62dd1ddf, 0x15da2d49, 0x8cd37cf3, 0xfbd44c65)
  }

  function Row6(col: bv8): bv32 {
    Column(col,
           0x4db26158, 0x3ab551ce, 0xa3bc0074, 0xd4bb30e2, 0x4adfa541, 0x3dd895d7, 0xa4d1c46d, 0xd3d6f4fb,
           0x4369e96a, 0x346ed9fc, 0xad678846, 0xda60b8d0, 0x44042d73, 0x33031de5, 0xaa0a4c5f, 0xdd0d7cc9)
  }

  function Row7(col: bv8): bv32 {
    Column(col,
           0x5005713c, 0x270241aa, 0xbe0b1010, 0xc90c2086, 0x5768b525, 0x206f85b3, 0xb966d409, 0xce61e49f,
           0x5edef90e, 0x29d9c998, 0xb0d09822, 0xc7d7a8b4, 0x59b33d17, 0x2eb40d81, 0xb7bd5c3b, 0xc0ba6cad)
  }

  function Row8(col: bv8): bv32 {
    Column(col,
           0xedb88320, 0x9abfb3b6, 0x03b6e20c, 0x74b1d29a, 0xead54739, 0x9dd277af, 0x04db2615, 0x73dc1683,
           0xe3630b12, 0x94643b84, 0x0d6d6a3e, 0x7a6a5aa8, 0xe40ecf0b, 0x9309ff9d, 0x0a00ae27, 0x7d079eb1)
  }

  function Row9(col: bv8): bv32 {
    Column(col,
           0xf00f9344, 0x8708a3d2, 0x1e01f268, 0x6906c2fe, 0xf762575d, 0x806567cb, 0x196c3671, 0x6e6b06e7,
           0xfed41b76, 0x89d32be0, 0x10da7a5a, 0x67dd4acc, 0xf9b9df6f, 0x8ebeeff9, 0x17b7be43, 0x60b08ed5)
  }

  function RowA(col: bv8): bv32 {
    Column(col,
           0xd6d6a3e8, 0xa1d1937e, 0x38d8c2c4, 0x4fdff252, 0xd1bb67f1, 0xa6bc5767, 0x3fb506dd, 0x48b2364b,
           0xd80d2bda, 0xaf0a1b4c, 0x36034af6, 0x41047a60, 0xdf60efc3, 0xa867df55, 0x316e8eef, 0x4669be79)
  }

  function RowB(col: bv8): bv32 {
    Column(col,
           0xcb61b38c, 0xbc66831a, 0x256fd2a0, 0x5268e236, 0xcc0c7795, 0xbb0b4703, 0x220216b9, 0x5505262f,
           0xc5ba3bbe, 0xb2bd0b28, 0x2bb45a92, 0x5cb36a04, 0xc2d7ffa7, 0xb5d0cf31, 0x2cd99e8b, 0x5bdeae1d)
  }

  function RowC(col: bv8): bv32 {
    Column(col,
           0x9b64c2b0, 0xec63f226, 0x756aa39c, 0x026d930a, 0x9c0906a9, 0xeb0e363f, 0x72076785, 0x05005713,
           0x95bf4a82, 0xe2b87a14, 0x7bb12bae, 0x0cb61b38, 0x92d28e9b, 0xe5d5be0d, 0x7cdcefb7, 0x0bdbdf21)
  }

  function RowD(col: bv8): bv32 {
    Column(col,
           0x86d3d2d4, 0xf1d4e242, 0x68ddb3f8, 0x1fda836e, 0x81be16cd, 0xf6b9265b, 0x6fb077e1, 0x18b74777,
           0x88085ae6, 0xff0f6a70, 0x66063bca, 0x11010b5c, 0x8f659eff, 0xf862ae69, 0x616bffd3, 0x166ccf45)
  }

  function RowE(col: bv8): bv32 {
    Column(col,
           0xa00ae278, 0xd70dd2ee, 0x4e048354, 0x3903b3c2, 0xa7672661, 0xd06016f7, 0x4969474d, 0x3e6e77db,
           0xaed16a4a, 0xd9d65adc, 0x40df0b66, 0x37d83bf0, 0xa9bcae53, 0xdebb9ec5, 0x47b2cf7f, 0x30b5ffe9)
  }

  function RowF(col: bv8): bv32 {
    Column(col,
           0xbdbdf21c, 0xcabac28a, 0x53b39330, 0x24b4a3a6, 0xbad03605, 0xcdd70693, 0x54de5729, 0x23d967bf,
           0xb3667a2e, 0xc4614ab8, 0x5d681b02, 0x2a6f2b94, 0xb40bbe37, 0xc30c8ea1, 0x5a05df1b, 0x2d02ef8d)
  }

  function UpperRows(row: bv8, col: bv8): bv32 {
    if row == 0x00 then Row0(col)
    else if row == 0x10 then Row1(col)
    else if row == 0x20 then Row2(col)
    else if row == 0x30 then Row3(col)
    else if row == 0x40 then Row4(col)
    else if row == 0x50 then Row5(col)
    else if row == 0x60 then Row6(col)
    else Row7(col)
  }

  function LowerRows(row: bv8, col: bv8): bv32 {
    if row == 0x80 then Row8(col)
    else if row == 0x90 then Row9(col)
    else if row == 0xa0 then RowA(col)
    else if row == 0xb0 then RowB(col)
    else if row == 0xc0 then RowC(col)
    else if row == 0xd0 then RowD(col)
    else if row == 0xe0 then RowE(col)
    else RowF(col)
  }

  /** The table of the code, in rows of 16 words. */
  function Table(row: bv8, col: bv8): bv32 {
    if row < 0x80 then UpperRows(row, col) else LowerRows(row, col)
  }

  /** A character as the index expression widens it: characters are signed. */
  function Widen(o: Octet): bv32 {
    if o.bits & 0x80 != 0 then (o.bits as bv32) | 0xffff_ff00 else o.bits as bv32
  }

  function Index(c: bv32, o: Octet): bv8 {
    ((c ^ Widen(o)) & 0xff) as bv8
  }

  function Shift8(c: bv32): bv32 {
    c >> 8
  }

  /** The register after a whole character, by the table. */
  function Update(c: bv32, o: Octet): bv32 {
    var k := Index(c, o);
    Xor(Table(k & 0xf0, k & 0x0f), Shift8(c))
  }

  // Division is linear

  function Step(c: bv32): bv32 {
    TakeBit(c, false)
  }

  function Step8(c: bv32): bv32 {
    Step(Step(Step(Step(Step(Step(Step(Step(c))))))))
  }

  lemma HalfLinear(a: bv32, b: bv32)
    ensures Half(Xor(a, b)) == Xor(Half(a), Half(b)) && Odd(Xor(a, b)) == (Odd(a) != Odd(b))
  {
  }

  lemma XorMoves(x: bv32, y: bv32, p: bv32)
    ensures Xor(Xor(x, p), y) == Xor(Xor(x, y), p) == Xor(x, Xor(y, p)) && Xor(Xor(x, p), Xor(y, p)) == Xor(x, y)
  {
  }

  /** A bit is taken from the sum of two words as from one of them, with the other's bit added to it. */
  lemma TakeLinear(a: bv32, b: bv32, bit: bool)
    ensures TakeBit(Xor(a, b), bit) == Xor(Step(a), TakeBit(b, bit))
    ensures TakeBit(Xor(a, b), bit) == Xor(TakeBit(a, Odd(b) != bit), Half(b))
  {
    HalfLinear(a, b);
    XorMoves(Half(a), Half(b), POLYNOMIAL);
    hide Xor, Odd, Half;
  }

  lemma Step8Linear(a: bv32, b: bv32)
    ensures Step8(Xor(a, b)) == Xor(Step8(a), Step8(b))
  {
    var a1, b1 := Step(a), Step(b);
    var a2, b2 := Step(a1), Step(b1);
    var a3, b3 := Step(a2), Step(b2);
    var a4, b4 := Step(a3), Step(b3);
    var a5, b5 := Step(a4), Step(b4);
    var a6, b6 := Step(a5), Step(b5);
    var a7, b7 := Step(a6), Step(b6);
    hide TakeBit, Xor;
    TakeLinear(a, b, false);
    TakeLinear(a1, b1, false);
    TakeLinear(a2, b2, false);
    TakeLinear(a3, b3, false);
    TakeLinear(a4, b4, false);
    TakeLinear(a5, b5, false);
    TakeLinear(a6, b6, false);
    TakeLinear(a7, b7, false);
  }

  // The table

  predicate IsColumn(col: bv8) {
    col < 16
  }

  lemma FirstWords()
    ensures Row0(0) == Step8(0) && Row0(1) == Step8(1) && Row0(2) == Step8(2) && Row0(3) == Step8(3)
  {
  }

  lemma FourthWords()
    ensures Row0(4) == Step8(4) && Row0(8) == Step8(8) && Row0(12) == Step8(12)
  {
  }

  lemma Row0Splits(col: bv8)
    requires IsColumn(col)
    ensures Row0(col) == Xor(Row0(col & 3), Row0(col & 12))
  {
  }

  lemma Nibble(col: bv8)
    requires IsColumn(col)
    ensures col as bv32 == Xor((col & 3) as bv32, (col & 12) as bv32)
    ensures col & 3 == 0 || col & 3 == 1 || col & 3 == 2 || col & 3 == 3
    ensures col & 12 == 0 || col & 12 == 4 || col & 12 == 8 || col & 12 == 12
  {
  }

  lemma Row0Right(col: bv8)
    requires IsColumn(col)
    ensures Row0(col) == Step8(col as bv32)
  {
    hide Row0, Step8, Xor;
    FirstWords();
    FourthWords();
    Row0Splits(col);
    Nibble(col);
    Step8Linear((col & 3) as bv32, (col & 12) as bv32);
  }

  lemma LeadersUpper()
    ensures Row1(0) == Step8(0x10) && Row2(0) == Step8(0x20) && Row3(0) == Step8(0x30) && Row4(0) == Step8(0x40) && Row5(0) == Step8(0x50)
  {
  }

  lemma LeadersMiddle()
    ensures Row6(0) == Step8(0x60) && Row7(0) == Step8(0x70) && Row8(0) == Step8(0x80) && Row9(0) == Step8(0x90) && RowA(0) == Step8(0xa0)
  {
  }

  lemma LeadersLower()
    ensures RowB(0) == Step8(0xb0) && RowC(0) == Step8(0xc0) && RowD(0) == Step8(0xd0) && RowE(0) == Step8(0xe0) && RowF(0) == Step8(0xf0)
  {
  }

  lemma Row1Right(col: bv8)
    requires IsColumn(col)
    ensures Row1(col) == Xor(Row1(0), Row0(col))
  {
  }

  lemma Row2Right(col: bv8)
    requires IsColumn(col)
    ensures Row2(col) == Xor(Row2(0), Row0(col))
  {
  }

  lemma Row3Right(col: bv8)
    requires IsColumn(col)
    ensures Row3(col) == Xor(Row3(0), Row0(col))
  {
  }

  lemma Row4Right(col: bv8)
    requires IsColumn(col)
    ensures Row4(col) == Xor(Row4(0), Row0(col))
  {
  }

  lemma Row5Right(col: bv8)
    requires IsColumn(col)
    ensures Row5(col) == Xor(Row5(0), Row0(col))
  {
  }

  lemma Row6Right(col: bv8)
    requires IsColumn(col)
    ensures Row6(col) == Xor(Row6(0), Row0(col))
  {
  }

  lemma Row7Right(col: bv8)
    requires IsColumn(col)
    ensures Row7(col) == Xor(Row7(0), Row0(col))
  {
  }

  lemma Row8Right(col: bv8)
    requires IsColumn(col)
    ensures Row8(col) == Xor(Row8(0), Row0(col))
  {
  }

  lemma Row9Right(col: bv8)
    requires IsColumn(col)
    ensures Row9(col) == Xor(Row9(0), Row0(col))
  {
  }

  lemma RowARight(col: bv8)
    requires IsColumn(col)
    ensures RowA(col) == Xor(RowA(0), Row0(col))
  {
  }

  lemma RowBRight(col: bv8)
    requires IsColumn(col)
    ensures RowB(col) == Xor(RowB(0), Row0(col))
  {
  }

  lemma RowCRight(col: bv8)
    requires IsColumn(col)
    ensures RowC(col) == Xor(RowC(0), Row0(col))
  {
  }

  lemma RowDRight(col: bv8)
    requires IsColumn(col)
    ensures RowD(col) == Xor(RowD(0), Row0(col))
  {
  }

  lemma RowERight(col: bv8)
    requires IsColumn(col)
    ensures RowE(col) == Xor(RowE(0), Row0(col))
  {
  }

  lemma RowFRight(col: bv8)
    requires IsColumn(col)
    ensures RowF(col) == Xor(RowF(0), Row0(col))
  {
  }

  predicate UpperRow(row: bv8) {
    || row == 0x00 || row == 0x10 || row == 0x20 || row == 0x30 || row == 0x40 || row == 0x50 || row == 0x60 || row == 0x70
  }

  predicate LowerRow(row: bv8) {
    || row == 0x80 || row == 0x90 || row == 0xa0 || row == 0xb0 || row == 0xc0 || row == 0xd0 || row == 0xe0 || row == 0xf0
  }

  lemma SixteenRows(k: bv8)
    ensures if k & 0xf0 < 0x80 then UpperRow(k & 0xf0) else LowerRow(k & 0xf0)
    ensures IsColumn(k & 0x0f) && k as bv32 == Xor((k & 0xf0) as bv32, (k & 0x0f) as bv32)
  {
  }

  lemma NothingAdded(c: bv32)
    ensures Step8(0) == 0 && Xor(0, c) == c && Xor(c, 0) == c
  {
  }

  lemma UpperHalfRight(row: bv8, col: bv8)
    requires UpperRow(row) && IsColumn(col)
    ensures UpperRows(row, col) == Xor(Step8(row as bv32), Step8(col as bv32))
  {
    hide Step8, Xor, IsColumn, Row0, Row1, Row2, Row3, Row4, Row5, Row6, Row7, Row8, Row9, RowA, RowB, RowC, RowD, RowE, RowF;
    LeadersUpper();
    LeadersMiddle();
    Row0Right(col);
    if row == 0x00 {
      NothingAdded(Step8(col as bv32));
    } else if row == 0x10 {
      Row1Right(col);
    } else if row == 0x20 {
      Row2Right(col);
    } else if row == 0x30 {
      Row3Right(col);
    } else if row == 0x40 {
      Row4Right(col);
    } else if row == 0x50 {
      Row5Right(col);
    } else if row == 0x60 {
      Row6Right(col);
    } else {
      Row7Right(col);
    }
  }

  lemma LowerHalfRight(row: bv8, col: bv8)
    requires LowerRow(row) && IsColumn(col)
    ensures LowerRows(row, col) == Xor(Step8(row as bv32), Step8(col as bv32))
  {
    hide Step8, Xor, IsColumn, Row0, Row1, Row2, Row3, Row4, Row5, Row6, Row7, Row8, Row9, RowA, RowB, RowC, RowD, RowE, RowF;
    LeadersMiddle();
    LeadersLower();
    Row0Right(col);
    if row == 0x80 {
      Row8Right(col);
    } else if row == 0x90 {
      Row9Right(col);
    } else if row == 0xa0 {
      RowARight(col);
    } else if row == 0xb0 {
      RowBRight(col);
    } else if row == 0xc0 {
      RowCRight(col);
    } else if row == 0xd0 {
      RowDRight(col);
    } else if row == 0xe0 {
      RowERight(col);
    } else if row == 0xf0 {
      RowFRight(col);
    }
  }

  /** What the table holds under an index is what eight steps make of the index. */
  lemma TableIsStep8(k: bv8)
    ensures Table(k & 0xf0, k & 0x0f) == Step8(k as bv32)
  {
    SixteenRows(k);
    hide UpperRows, LowerRows, Step8, Xor, UpperRow, LowerRow, IsColumn;
    if k & 0xf0 < 0x80 {
      UpperHalfRight(k & 0xf0, k & 0x0f);
    } else {
      LowerHalfRight(k & 0xf0, k & 0x0f);
    }
    Step8Linear((k & 0xf0) as bv32, (k & 0x0f) as bv32);
  }

  // A character at a time

  lemma NoLowBits(c: bv32)
    requires c & 0xff == 0
    ensures var c1 := Half(c); var c2 := Half(c1); var c3 := Half(c2); var c4 := Half(c3);
      var c5 := Half(c4); var c6 := Half(c5); var c7 := Half(c6);
      && !Odd(c) && !Odd(c1) && !Odd(c2) && !Odd(c3) && !Odd(c4) && !Odd(c5) && !Odd(c6) && !Odd(c7)
      && Half(c7) == Shift8(c)
  {
  }

  /** A word without low bits is only shifted. */
  lemma HighPart(c: bv32)
    requires c & 0xff == 0
    ensures Step8(c) == Shift8(c)
  {
    NoLowBits(c);
    hide Odd, Half, Xor, Shift8;
  }

  function High(c: bv32): bv32 {
    c & 0xffff_ff00
  }

  lemma Parts(c: bv32, o: Octet)
    ensures Xor(c, o.bits as bv32) == Xor(Index(c, o) as bv32, High(c))
    ensures High(c) & 0xff == 0 && Shift8(High(c)) == Shift8(c)
  {
  }

  lemma UpdateIsStep8(c: bv32, o: Octet)
    ensures Update(c, o) == Step8(Xor(c, o.bits as bv32))
  {
    hide Table, Step8, Xor, Index, High, Shift8;
    Parts(c, o);
    TableIsStep8(Index(c, o));
    HighPart(High(c));
    Step8Linear(Index(c, o) as bv32, High(c));
  }

  lemma OctetBits(o: Octet)
    ensures var o0 := o.bits as bv32; var o1 := Half(o0); var o2 := Half(o1); var o3 := Half(o2);
      var o4 := Half(o3); var o5 := Half(o4); var o6 := Half(o5); var o7 := Half(o6);
      var b := BitsOf(o);
      && b[0] == Odd(o0) && b[1] == Odd(o1) && b[2] == Odd(o2) && b[3] == Odd(o3)
      && b[4] == Odd(o4) && b[5] == Odd(o5) && b[6] == Odd(o6) && b[7] == Odd(o7) && Half(o7) == 0
  {
  }

  lemma DivideMore(c: bv32, bits: seq<bool>, bit: bool)
    ensures Divide(c, bits + [bit]) == TakeBit(Divide(c, bits), bit)
  {
    hide TakeBit;
    assert (bits + [bit])[..|bits + [bit]| - 1] == bits;
  }

  lemma StepTakesBit(c: bv32, w: bv32)
    ensures Step(Xor(c, w)) == Xor(TakeBit(c, Odd(w)), Half(w))
  {
    TakeLinear(c, w, false);
  }

  /** The register after the first bits of a character. */
  function Taken(c: bv32, bits: seq<bool>, b: seq<bool>, i: nat): bv32
    requires i <= |b|
  {
    Divide(c, bits + b[..i])
  }

  lemma TakeNext(c: bv32, bits: seq<bool>, b: seq<bool>, i: nat, w: bv32)
    requires i < |b| && b[i] == Odd(w)
    ensures Step(Xor(Taken(c, bits, b, i), w)) == Xor(Taken(c, bits, b, i + 1), Half(w))
  {
    DivideMore(c, bits + b[..i], b[i]);
    assert bits + b[..i] + [b[i]] == bits + b[..i + 1];
    StepTakesBit(Divide(c, bits + b[..i]), w);
    hide TakeBit, Xor, Odd, Half, Step, Divide;
  }

  lemma TakenEnds(c: bv32, bits: seq<bool>, b: seq<bool>)
    ensures Taken(c, bits, b, 0) == Divide(c, bits) && Taken(c, bits, b, |b|) == Divide(c, bits + b)
  {
    assert bits + b[..0] == bits && b[..|b|] == b;
  }

  /** Bits i and i + 1 of a character, two steps. */
  lemma TakeTwo(c: bv32, bits: seq<bool>, b: seq<bool>, i: nat, w: bv32)
    requires i + 1 < |b| && b[i] == Odd(w) && b[i + 1] == Odd(Half(w))
    ensures Step(Step(Xor(Taken(c, bits, b, i), w))) == Xor(Taken(c, bits, b, i + 2), Half(Half(w)))
  {
    hide TakeBit, Xor, Odd, Half, Step, Taken;
    TakeNext(c, bits, b, i, w);
    TakeNext(c, bits, b, i + 1, Half(w));
  }

  lemma EightSteps(c: bv32, bits: seq<bool>, b: seq<bool>, w: bv32)
    requires |b| == 8
    requires var w1 := Half(w); var w2 := Half(w1); var w3 := Half(w2); var w4 := Half(w3);
      var w5 := Half(w4); var w6 := Half(w5); var w7 := Half(w6);
      && b[0] == Odd(w) && b[1] == Odd(w1) && b[2] == Odd(w2) && b[3] == Odd(w3)
      && b[4] == Odd(w4) && b[5] == Odd(w5) && b[6] == Odd(w6) && b[7] == Odd(w7) && Half(w7) == 0
    ensures Step8(Xor(Taken(c, bits, b, 0), w)) == Xor(Taken(c, bits, b, 8), 0)
  {
    hide TakeBit, Xor, Odd, Half, Step, Taken;
    var w2 := Half(Half(w));
    var w4 := Half(Half(w2));
    TakeTwo(c, bits, b, 0, w);
    TakeTwo(c, bits, b, 2, w2);
    TakeTwo(c, bits, b, 4, w4);
    TakeTwo(c, bits, b, 6, Half(Half(w4)));
  }

  /** Eight bits taken one by one are eight steps from the sum of register and character. */
  lemma DivideOctet(c: bv32, bits: seq<bool>, o: Octet)
    ensures Divide(c, bits + BitsOf(o)) == Step8(Xor(Divide(c, bits), o.bits as bv32))
  {
    hide Step8, Xor, Odd, Half, BitsOf, Divide, Taken;
    OctetBits(o);
    EightSteps(c, bits, BitsOf(o), o.bits as bv32);
    NothingAdded(Divide(c, bits + BitsOf(o)));
    TakenEnds(c, bits, BitsOf(o));
  }

  /** The register after whole characters. */
  function Over(c: bv32, data: seq<Octet>): bv32 {
    if data == [] then c else Step8(Xor(Over(c, data[..|data| - 1]), data[|data| - 1].bits as bv32))
  }

  lemma {:induction false} DivideIsOver(c: bv32, data: seq<Octet>)
    ensures Divide(c, MessageBits(data)) == Over(c, data)
  {
    hide TakeBit, Step8, Xor, BitsOf;
    if data != [] {
      var n := |data| - 1;
      DivideIsOver(c, data[..n]);
      DivideOctet(c, MessageBits(data[..n]), data[n]);
    }
  }

  /** The table-driven loop computes the remainder of the division bit by bit. */
  method MakeCrc32(data: seq<Octet>) returns (r: bv32)
    ensures r == Crc32(data)
  {
    hide Update, TakeBit, Step8, BitsOf, Xor, Divide;
    var c: bv32 := 0xffff_ffff;
    for i := 0 to |data|
      invariant c == Over(0xffff_ffff, data[..i])
    {
      assert data[..i + 1][..i] == data[..i];
      UpdateIsStep8(c, data[i]);
      c := Update(c, data[i]);
    }
    assert data[..|data|] == data;
    DivideIsOver(0xffff_ffff, data);
    r := !c;
  }

  // What the checksum detects

  lemma {:induction false} OverAppend(c: bv32, left: seq<Octet>, right: seq<Octet>)
    ensures Over(c, left + right) == Over(Over(c, left), right)
  {
    hide Step8, Xor;
    if right == [] {
      assert left + right == left;
    } else {
      var n := |right| - 1;
      assert (left + right)[..|left| + n] == left + right[..n];
      OverAppend(c, left, right[..n]);
    }
  }

  lemma OverFirst(c: bv32, data: seq<Octet>)
    requires data != []
    ensures Over(c, data) == Over(Step8(Xor(c, data[0].bits as bv32)), data[1..])
  {
    hide Step8, Xor;
    OverAppend(c, data[..1], data[1..]);
    assert data[..1] + data[1..] == data && data[..1][..0] == [];
  }

  function Up2(s: bv32): bv32 {
    s << 2
  }

  function Up8(s: bv32): bv32 {
    s << 8
  }

  /** The highest bits are zero. */
  predicate Spare2(s: bv32) {
    s & 0xc000_0000 == 0
  }

  predicate Spare8(s: bv32) {
    s & 0xff00_0000 == 0
  }

  lemma StepBack(c: bv32)
    requires Step(c) & 0x8000_0000 == 0
    ensures c == Step(c) << 1
  {
  }

  lemma ShiftTwice(s: bv32)
    requires Spare2(s)
    ensures s & 0x8000_0000 == 0 && (s << 1) & 0x8000_0000 == 0 && (s << 1) << 1 == Up2(s)
  {
  }

  lemma StepBackTwice(c: bv32)
    requires Spare2(Step(Step(c)))
    ensures c == Up2(Step(Step(c)))
  {
    hide Step;
    ShiftTwice(Step(Step(c)));
    StepBack(Step(c));
    StepBack(c);
  }

  lemma ShiftEight(s: bv32)
    requires Spare8(s)
    ensures Spare2(s) && Spare2(Up2(s)) && Spare2(Up2(Up2(s))) && Spare2(Up2(Up2(Up2(s)))) && Up2(Up2(Up2(Up2(s)))) == Up8(s)
  {
  }

  /** Eight steps that leave the highest byte empty have only shifted. */
  lemma Step8Back(c: bv32)
    requires Spare8(Step8(c))
    ensures c == Up8(Step8(c))
  {
    hide Step, Spare8, Spare2, Up2, Up8;
    var c2 := Step(Step(c));
    var c4 := Step(Step(c2));
    ShiftEight(Step8(c));
    StepBackTwice(Step(Step(c4)));
    StepBackTwice(c4);
    StepBackTwice(c2);
    StepBackTwice(c);
  }

  lemma Step8Injective(a: bv32, b: bv32)
    requires Step8(a) == Step8(b)
    ensures a == b
  {
    hide Step8, Xor;
    Step8Linear(a, b);
    XorFour(a, b, 0, 0);
    NoDifference(Step8(a));
    Step8Back(Xor(a, b));
  }

  /** Only the lowest n bytes are in use. */
  predicate Fits(c: bv32, n: nat) {
    c & (if n == 0 then 0xffff_ffff else if n == 1 then 0xffff_ff00 else if n == 2 then 0xffff_0000
         else if n == 3 then 0xff00_0000 else 0) == 0
  }

  lemma FitsBefore(e: bv32, n: nat, u: bv8, v: bv8)
    requires 0 < n <= 4 && Fits(Step8(e), n - 1)
    ensures Fits(Xor(e, Xor(u as bv32, v as bv32)), n)
    ensures Xor(e, Xor(u as bv32, v as bv32)) == 0 ==> u == v && e == 0
  {
    hide Step8, Spare8, Up8, Fits, Xor;
    ShiftFits(Step8(e), n, u, v);
    Step8Back(e);
  }

  lemma ShiftFits(s: bv32, n: nat, u: bv8, v: bv8)
    requires 0 < n <= 4 && Fits(s, n - 1)
    ensures Spare8(s) && Fits(Xor(Up8(s), Xor(u as bv32, v as bv32)), n)
    ensures Xor(Up8(s), Xor(u as bv32, v as bv32)) == 0 ==> u == v && Up8(s) == 0
  {
  }

  lemma XorCommutes(x: bv32, y: bv32)
    ensures Xor(x, y) == Xor(y, x)
  {
  }

  lemma XorCancels(x: bv32, y: bv32)
    ensures Xor(Xor(x, y), y) == x
  {
  }

  lemma XorNothing(x: bv32)
    ensures Xor(0, x) == x && Xor(x, x) == 0
  {
  }

  lemma XorZero(x: bv32, y: bv32)
    ensures Xor(x, y) == 0 <==> x == y
  {
    hide Xor;
    XorCancels(x, y);
    XorNothing(y);
  }

  lemma XorGroups(x: bv32, y: bv32, p: bv32)
    ensures Xor(Xor(x, y), p) == Xor(x, Xor(y, p))
  {
  }

  lemma XorFour(c: bv32, d: bv32, u: bv32, v: bv32)
    ensures Xor(c, d) == Xor(Xor(Xor(c, u), Xor(d, v)), Xor(u, v))
    ensures Xor(c, d) == 0 <==> c == d
  {
    hide Xor;
    XorZero(c, d);
    calc {
      Xor(Xor(Xor(c, u), Xor(d, v)), Xor(u, v));
      { XorGroups(Xor(c, u), Xor(d, v), Xor(u, v)); XorCommutes(u, v); }
      Xor(Xor(c, u), Xor(Xor(d, v), Xor(v, u)));
      { XorGroups(Xor(d, v), v, u); XorCancels(d, v); }
      Xor(Xor(c, u), Xor(d, u));
      { XorCommutes(d, u); XorGroups(Xor(c, u), u, d); }
      Xor(Xor(Xor(c, u), u), d);
      { XorCancels(c, u); }
      Xor(c, d);
    }
  }

  /** Registers that meet after n characters each, up to four, differ at most in the lowest n bytes. */
  lemma {:induction false} MeetingRegisters(c: bv32, d: bv32, x: seq<Octet>, y: seq<Octet>)
    requires |x| == |y| <= 4 && Over(c, x) == Over(d, y)
    ensures Fits(Xor(c, d), |x|)
    ensures c == d ==> x == y
    decreases |x|
  {
    hide Step8, Xor, Fits;
    if x == [] {
      NoDifference(c);
    } else {
      var u, v := x[0].bits, y[0].bits;
      var c', d' := Xor(c, u as bv32), Xor(d, v as bv32);
      OverFirst(c, x);
      OverFirst(d, y);
      MeetingRegisters(Step8(c'), Step8(d'), x[1..], y[1..]);
      Step8Linear(c', d');
      XorFour(c, d, u as bv32, v as bv32);
      XorFour(c', d', 0, 0);
      FitsBefore(Xor(c', d'), |x|, u, v);
      if c == d {
        assert x == [x[0]] + x[1..] && y == [y[0]] + y[1..];
      }
    }
  }

  lemma NoDifference(c: bv32)
    ensures Xor(c, c) == 0 && Fits(0, 0)
  {
  }

  lemma SameAdded(c: bv32, d: bv32, w: bv32)
    requires Xor(c, w) == Xor(d, w)
    ensures c == d
  {
  }

  lemma {:induction false} OverInjective(c: bv32, d: bv32, data: seq<Octet>)
    requires Over(c, data) == Over(d, data)
    ensures c == d
  {
    hide Step8, Xor;
    if data != [] {
      var n := |data| - 1;
      var o := data[n];
      Step8Injective(Xor(Over(c, data[..n]), o.bits as bv32), Xor(Over(d, data[..n]), o.bits as bv32));
      SameAdded(Over(c, data[..n]), Over(d, data[..n]), o.bits as bv32);
      OverInjective(c, d, data[..n]);
    }
  }

  /** Messages that differ only within four neighbouring characters have different checksums. */
  lemma DetectsBursts(before: seq<Octet>, x: seq<Octet>, y: seq<Octet>, after: seq<Octet>)
    requires |x| == |y| <= 4 && x != y
    ensures Crc32(before + x + after) != Crc32(before + y + after)
  {
    var init: bv32 := 0xffff_ffff;
    DivideIsOver(init, before + x + after);
    DivideIsOver(init, before + y + after);
    OverAppend(init, before + x, after);
    OverAppend(init, before + y, after);
    OverAppend(init, before, x);
    OverAppend(init, before, y);
    hide Divide, Over;
    var c := Over(init, before);
    if Over(Over(c, x), after) == Over(Over(c, y), after) {
      OverInjective(Over(c, x), Over(c, y), after);
      MeetingRegisters(c, c, x, y);
    }
  }
}
