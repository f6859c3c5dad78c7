/** The Base64 codec: printing groups of three bytes as four characters, and reading them back. */
module Base64 {
  import opened Bytes
  import opened Collections

  /** The table of the code, in rows of 16. */
  function EncodeTable(i: nat): char
    requires i < 64
  {
    (if i < 16 then "ABCDEFGHIJKLMNOP"
     else if i < 32 then "QRSTUVWXYZabcdef"
     else if i < 48 then "ghijklmnopqrstuv"
     else "wxyz0123456789+/")[i % 16]
  }

  function DecodeRow(row: nat): (values: seq<nat>)
    requires row < 8
    ensures |values| == 16
  {
    if row == 2 then [0, 0, 0, 0, 0, 0, 0, 0, 0, 0, 0, 62, 0, 0, 0, 63]
    else if row == 3 then [52, 53, 54, 55, 56, 57, 58, 59, 60, 61, 0, 0, 0, 0, 0, 0]
    else if row == 4 then [0, 0, 1, 2, 3, 4, 5, 6, 7, 8, 9, 10, 11, 12, 13, 14]
    else if row == 5 then [15, 16, 17, 18, 19, 20, 21, 22, 23, 24, 25, 0, 0, 0, 0, 0]
    else if row == 6 then [0, 26, 27, 28, 29, 30, 31, 32, 33, 34, 35, 36, 37, 38, 39, 40]
    else if row == 7 then [41, 42, 43, 44, 45, 46, 47, 48, 49, 50, 51, 0, 0, 0, 0, 0]
    else seq(16, _ => 0)
  }

  /** The inverse table; characters outside the alphabet count as zero. */
  function DecodeTable(c: char): nat
    requires c as int < 128
  {
    DecodeRow(c as int / 16)[c as int % 16]
  }

  /** Table 1 of RFC 4648. */
  function Letter(i: nat): char
    requires i < 64
  {
    if i < 26 then (i + 65) as char
    else if i < 52 then (i - 26 + 97) as char
    else if i < 62 then (i - 52 + 48) as char
    else if i == 62 then '+' else '/'
  }

  lemma UpperRowsRight(i: nat)
    requires i < 32
    ensures EncodeTable(i) == Letter(i)
  {
  }

  lemma LowerRowsRight(i: nat)
    requires 32 <= i < 64
    ensures EncodeTable(i) == Letter(i)
  {
  }

  lemma EncodeTableRight(i: nat)
    requires i < 64
    ensures EncodeTable(i) == Letter(i)
  {
    hide EncodeTable, Letter;
    if i < 32 {
      UpperRowsRight(i);
    } else {
      LowerRowsRight(i);
    }
  }

  lemma CapitalsRight(i: nat)
    requires i < 26
    ensures DecodeTable(Letter(i)) == i
  {
  }

  lemma SmallsRight(i: nat)
    requires 26 <= i < 52
    ensures DecodeTable(Letter(i)) == i
  {
  }

  lemma OthersRight(i: nat)
    requires 52 <= i < 64
    ensures DecodeTable(Letter(i)) == i
  {
  }

  predicate IsBreak(c: char) {
    c as int == 13 || c as int == 10
  }

  lemma DecodeTableRight(i: nat)
    requires i < 64
    ensures Letter(i) as int < 128 && DecodeTable(Letter(i)) == i && Letter(i) != '=' && !IsBreak(Letter(i))
  {
    hide DecodeTable;
    if i < 26 {
      CapitalsRight(i);
    } else if i < 52 {
      SmallsRight(i);
    } else {
      OthersRight(i);
    }
  }

  // Section 4 of RFC 4648

  /** Sextet k of a group of 24 bits, highest first. */
  function Sextet(n: nat, k: nat): (v: nat)
    requires n < 0x100_0000 && k < 4
    ensures v < 64
  {
    (match k
     case 0 => n / 0x4_0000
     case 1 => n / 0x1000
     case 2 => n / 64
     case _ => n) % 64
  }

  function Group(a: byte, b: byte, c: byte): (n: nat)
    ensures n < 0x100_0000
  {
    a as int * 0x1_0000 + b as int * 0x100 + c as int
  }

  /** A group of which `bytes` bytes are data. */
  function Quad(n: nat, bytes: nat): (q: string)
    requires n < 0x100_0000 && 1 <= bytes <= 3
    ensures |q| == 4
  {
    [
      Letter(Sextet(n, 0)), Letter(Sextet(n, 1)),
      if bytes > 1 then Letter(Sextet(n, 2)) else '=',
      if bytes > 2 then Letter(Sextet(n, 3)) else '='
    ]
  }

  function Base64(data: seq<byte>): (code: string) {
    if data == [] then []
    else if |data| == 1 then Quad(Group(data[0], 0, 0), 1)
    else if |data| == 2 then Quad(Group(data[0], data[1], 0), 2)
    else Quad(Group(data[0], data[1], data[2]), 3) + Base64(data[3..])
  }

  lemma OneMoreGroup(n: nat)
    ensures (n + 3 + 2) / 3 == (n + 2) / 3 + 1
  {
  }

  lemma {:induction false} Base64Length(data: seq<byte>)
    ensures |Base64(data)| == 4 * ((|data| + 2) / 3)
  {
    hide Quad, Group;
    if |data| > 2 {
      OneMoreGroup(|data[3..]|);
      Base64Length(data[3..]);
    }
  }

  // Reading

  function SkipBreaks(text: string): (rest: string)
    ensures |rest| <= |text| && (rest == [] || !IsBreak(rest[0]))
  {
    if text != [] && IsBreak(text[0]) then SkipBreaks(text[1..]) else text
  }

  // The bytes of a quad, by the shifts and masks of the code

  function Byte1(v: nat, w: nat): byte {
    ((v * 4 % 0x100 + w / 16 % 4) % 0x100) as byte
  }

  function Byte2(w: nat, x: nat): byte {
    ((w * 16 % 0x100 + x / 4 % 16) % 0x100) as byte
  }

  function Byte3(x: nat, y: nat): byte {
    ((x * 64 % 0x100 + y) % 0x100) as byte
  }

  function QuadBytes(a: char, b: char, c: char, d: char): seq<byte>
    requires a as int < 128 && b as int < 128 && c as int < 128 && d as int < 128
  {
    var v, w, x, y := DecodeTable(a), DecodeTable(b), DecodeTable(c), DecodeTable(d);
    [Byte1(v, w)] + (if c != '=' then [Byte2(w, x)] else []) + (if d != '=' then [Byte3(x, y)] else [])
  }

  /** What the decoder demands: behind line breaks, whole quads of 7-bit characters. */
  predicate Decodable(text: string)
    decreases |text|
  {
    var rest := SkipBreaks(text);
    rest == [] || (|rest| >= 4 && (forall k :: 0 <= k < 4 ==> rest[k] as int < 128) && Decodable(rest[4..]))
  }

  function Decoded(text: string): seq<byte>
    requires Decodable(text)
    decreases |text|
  {
    var rest := SkipBreaks(text);
    if rest == [] then [] else QuadBytes(rest[0], rest[1], rest[2], rest[3]) + Decoded(rest[4..])
  }

  /** A number of the form 64 * q + r is taken apart. */
  lemma TakeApart(q: nat, r: nat)
    requires r < 64
    ensures (64 * q + r) / 64 == q && (64 * q + r) % 64 == r
  {
  }

  lemma SextetsOfBytes(a: byte, b: byte, c: byte)
    ensures var n := Group(a, b, c); var x, y, z := a as int, b as int, c as int;
      && Sextet(n, 0) == x / 4 && Sextet(n, 1) == x % 4 * 16 + y / 16
      && Sextet(n, 2) == y % 16 * 4 + z / 64 && Sextet(n, 3) == z % 64
  {
    var x, y, z := a as int, b as int, c as int;
    var s0, s1, s2, s3 := x / 4, x % 4 * 16 + y / 16, y % 16 * 4 + z / 64, z % 64;
    GroupOfSextets(a, b, c);
    SextetsOf(s0, s1, s2, s3);
    hide Group, Sextet;
  }

  lemma GroupOfSextets(a: byte, b: byte, c: byte)
    ensures var x, y, z := a as int, b as int, c as int;
      Group(a, b, c) == ((x / 4 * 64 + (x % 4 * 16 + y / 16)) * 64 + (y % 16 * 4 + z / 64)) * 64 + z % 64
  {
  }

  lemma SextetsOf(s0: nat, s1: nat, s2: nat, s3: nat)
    requires s0 < 64 && s1 < 64 && s2 < 64 && s3 < 64
    ensures var n := ((s0 * 64 + s1) * 64 + s2) * 64 + s3;
      n < 0x100_0000 && Sextet(n, 0) == s0 && Sextet(n, 1) == s1 && Sextet(n, 2) == s2 && Sextet(n, 3) == s3
  {
    var n2 := s0 * 64 + s1;
    var n1 := n2 * 64 + s2;
    var n := n1 * 64 + s3;
    TakeApart(s0, s1);
    TakeApart(n2, s2);
    TakeApart(n1, s3);
    Quotients(n);
  }

  lemma Quotients(n: nat)
    ensures n / 0x1000 == n / 64 / 64 && n / 0x4_0000 == n / 64 / 64 / 64
  {
  }

  lemma FirstByte(x: byte, y: byte)
    ensures Byte1(x as int / 4, x as int % 4 * 16 + y as int / 16) == x
  {
    var w := x as int % 4 * 16 + y as int / 16;
    assert w / 16 == x as int % 4;
  }

  lemma ShiftFour(u: nat, t: nat)
    requires t < 16
    ensures (u * 16 + t) * 16 % 0x100 == t * 16
  {
    assert (u * 16 + t) * 16 == u * 0x100 + t * 16;
  }

  lemma DropTwo(p: nat, r: nat)
    requires p < 16 && r < 4
    ensures (p * 4 + r) / 4 % 16 == p
  {
    assert (p * 4 + r) / 4 == p;
  }

  lemma Byte2Of(w: nat, u: nat, t: nat, p: nat)
    requires t < 16 && p < 16 && w * 16 % 0x100 == t * 16 && u / 4 % 16 == p
    ensures Byte2(w, u) as int == t * 16 + p
  {
  }

  lemma Nibbles(y: nat)
    ensures y == y / 16 * 16 + y % 16
  {
  }

  lemma SecondByte(x: byte, y: byte, z: byte)
    ensures Byte2(x as int % 4 * 16 + y as int / 16, y as int % 16 * 4 + z as int / 64) == y
  {
    hide Byte2;
    var u, t, p, r := x as int % 4, y as int / 16, y as int % 16, z as int / 64;
    Nibbles(y as int);
    ShiftFour(u, t);
    DropTwo(p, r);
    Byte2Of(u * 16 + t, p * 4 + r, t, p);
  }

  lemma ThirdByte(y: byte, z: byte)
    ensures Byte3(y as int % 16 * 4 + z as int / 64, z as int % 64) == z
  {
    var u := y as int % 16 * 4 + z as int / 64;
    assert u * 64 == y as int % 16 * 0x100 + z as int / 64 * 64;
    assert u * 64 % 0x100 == z as int / 64 * 64;
  }

  /** The data bytes of a group, of which there are one to three. */
  lemma QuadBytesOfQuad(a: byte, b: byte, c: byte, bytes: nat)
    requires 1 <= bytes <= 3
    ensures var q := Quad(Group(a, b, c), bytes);
      && (forall k :: 0 <= k < 4 ==> q[k] as int < 128) && !IsBreak(q[0])
      && QuadBytes(q[0], q[1], q[2], q[3]) == [a, b, c][..bytes]
  {
    hide DecodeTable, Letter, IsBreak, Sextet, Group, Byte1, Byte2, Byte3;
    var n := Group(a, b, c);
    SextetsOfBytes(a, b, c);
    FirstByte(a, b);
    SecondByte(a, b, c);
    ThirdByte(b, c);
    DecodeTableRight(Sextet(n, 0));
    DecodeTableRight(Sextet(n, 1));
    DecodeTableRight(Sextet(n, 2));
    DecodeTableRight(Sextet(n, 3));
  }

  lemma DecodeQuad(q: string, rest: string)
    requires |q| == 4 && !IsBreak(q[0]) && (forall k :: 0 <= k < 4 ==> q[k] as int < 128) && Decodable(rest)
    ensures Decodable(q + rest) && Decoded(q + rest) == QuadBytes(q[0], q[1], q[2], q[3]) + Decoded(rest)
  {
    hide QuadBytes;
    assert SkipBreaks(q + rest) == q + rest && (q + rest)[4..] == rest;
  }

  /** Decoding inverts encoding. */
  lemma {:induction false} DecodedBase64(data: seq<byte>)
    ensures Decodable(Base64(data)) && Decoded(Base64(data)) == data
  {
    hide Quad, QuadBytes;
    if data != [] {
      var n := if |data| < 3 then |data| else 3;
      var a, b, c := data[0], if n > 1 then data[1] else 0, if n > 2 then data[2] else 0;
      var q := Quad(Group(a, b, c), n);
      QuadBytesOfQuad(a, b, c, n);
      DecodedBase64(data[n..]);
      DecodeQuad(q, Base64(data[n..]));
      assert Base64(data) == q + Base64(data[n..]);
      assert data == [a, b, c][..n] + data[n..];
    }
  }

  lemma {:induction false} SkipAll(breaks: string, text: string)
    requires forall k :: 0 <= k < |breaks| ==> IsBreak(breaks[k])
    ensures SkipBreaks(breaks + text) == SkipBreaks(text)
  {
    if breaks == [] {
      assert breaks + text == text;
    } else {
      assert (breaks + text)[1..] == breaks[1..] + text;
      SkipAll(breaks[1..], text);
    }
  }

  lemma {:induction false} SkipFront(left: string, right: string)
    ensures SkipBreaks(left + right) == if SkipBreaks(left) == [] then SkipBreaks(right) else SkipBreaks(left) + right
  {
    if left == [] {
      assert left + right == right;
    } else if IsBreak(left[0]) {
      assert (left + right)[1..] == left[1..] + right;
      SkipFront(left[1..], right);
    }
  }

  lemma SameBehindBreaks(left: string, right: string)
    requires SkipBreaks(left) == SkipBreaks(right)
    ensures Decodable(left) == Decodable(right)
    ensures Decodable(left) ==> Decoded(left) == Decoded(right)
  {
    hide QuadBytes, SkipBreaks;
  }

  lemma FirstQuad(text: string)
    requires Decodable(text) && SkipBreaks(text) != []
    ensures var rest := SkipBreaks(text);
      && |rest| >= 4 && (forall k :: 0 <= k < 4 ==> rest[k] as int < 128) && !IsBreak(rest[0]) && Decodable(rest[4..])
      && Decoded(text) == QuadBytes(rest[0], rest[1], rest[2], rest[3]) + Decoded(rest[4..])
  {
    hide QuadBytes, IsBreak;
  }

  lemma NothingToSkip(text: string)
    requires text != [] && !IsBreak(text[0])
    ensures SkipBreaks(text) == text
  {
  }

  lemma NoQuad(text: string)
    requires SkipBreaks(text) == []
    ensures Decodable(text) && Decoded(text) == []
  {
  }

  lemma {:induction false} DecodeAfter(left: string, right: string)
    requires Decodable(left) && Decodable(right)
    ensures Decodable(left + right) && Decoded(left + right) == Decoded(left) + Decoded(right)
    decreases |left|
  {
    hide QuadBytes, IsBreak, SkipBreaks, Decodable, Decoded;
    SkipFront(left, right);
    var rest := SkipBreaks(left);
    if rest == [] {
      NoQuad(left);
      SameBehindBreaks(left + right, right);
      Regroup([], [], Decoded(right));
    } else {
      FirstQuad(left);
      var q, more := rest[..4], rest[4..];
      assert rest == q + more;
      DecodeAfter(more, right);
      DecodeQuad(q, more + right);
      Regroup(q, more, right);
      NothingToSkip(rest + right);
      SameBehindBreaks(left + right, rest + right);
      Regroup(QuadBytes(q[0], q[1], q[2], q[3]), Decoded(more), Decoded(right));
    }
  }

  /** Line breaks between quads do not change what is decoded. */
  lemma BreaksDoNotMatter(left: string, breaks: string, right: string)
    requires Decodable(left) && Decodable(right) && forall k :: 0 <= k < |breaks| ==> IsBreak(breaks[k])
    ensures Decodable(left + right) && Decodable(left + breaks + right)
    ensures Decoded(left + breaks + right) == Decoded(left + right)
  {
    hide Decodable, Decoded, SkipBreaks;
    SkipAll(breaks, right);
    SameBehindBreaks(breaks + right, right);
    DecodeAfter(left, right);
    DecodeAfter(left, breaks + right);
    assert left + breaks + right == left + (breaks + right);
  }

  // The loops

  /** The highest six bits of a word are shifted out. */
  lemma ShiftOut(s: nat, t: nat)
    requires s < 64 && t < 0x400_0000
    ensures var x := s * 0x400_0000 + t; x / 0x400_0000 == s && x * 64 % WORD == t * 64
  {
    var x := s * 0x400_0000 + t;
    assert x * 64 == s * WORD + t * 64;
    SkipWords(t * 64, s);
  }

  /** The word of the encoder after k characters of a group were printed. */
  function Rest(n: nat, k: nat): (x: nat)
    requires n < 0x100_0000 && k <= 4
    ensures x < WORD
  {
    if k == 0 then n * 0x100 else Rest(n, k - 1) * 64 % WORD
  }

  lemma SextetsOfGroup(n: nat)
    requires n < 0x100_0000
    ensures n == Sextet(n, 0) * 0x4_0000 + Sextet(n, 1) * 0x1000 + Sextet(n, 2) * 64 + Sextet(n, 3)
  {
    assert n / 0x1000 == n / 64 / 64;
    assert n / 0x4_0000 == n / 0x1000 / 64;
  }

  /** The word while a group of the sextets a, b, c and d is printed. */
  lemma RestsOf(n: nat, a: nat, b: nat, c: nat, d: nat)
    requires a < 64 && b < 64 && c < 64 && d < 64 && n == a * 0x4_0000 + b * 0x1000 + c * 64 + d && n < 0x100_0000
    ensures Rest(n, 0) == a * 0x400_0000 + (b * 0x10_0000 + c * 0x4000 + d * 0x100)
    ensures Rest(n, 1) == b * 0x400_0000 + (c * 0x10_0000 + d * 0x4000)
    ensures Rest(n, 2) == c * 0x400_0000 + d * 0x10_0000
    ensures Rest(n, 3) == d * 0x400_0000 + 0
  {
    ShiftOut(a, b * 0x10_0000 + c * 0x4000 + d * 0x100);
    ShiftOut(b, c * 0x10_0000 + d * 0x4000);
    ShiftOut(c, d * 0x10_0000);
  }

  lemma TopSextet(n: nat, k: nat)
    requires n < 0x100_0000 && k < 4
    ensures Rest(n, k) / 0x400_0000 == Sextet(n, k)
  {
    hide Sextet, Rest;
    var a, b, c, d := Sextet(n, 0), Sextet(n, 1), Sextet(n, 2), Sextet(n, 3);
    SextetsOfGroup(n);
    RestsOf(n, a, b, c, d);
    if k == 0 {
      ShiftOut(a, b * 0x10_0000 + c * 0x4000 + d * 0x100);
    } else if k == 1 {
      ShiftOut(b, c * 0x10_0000 + d * 0x4000);
    } else if k == 2 {
      ShiftOut(c, d * 0x10_0000);
    } else {
      ShiftOut(d, 0);
    }
  }

  /** Character j of a quad is read off the top of the shifted word, or is padding. */
  lemma QuadAt(n: nat, bytes: nat, j: nat)
    requires n < 0x100_0000 && 1 <= bytes <= 3 && j < 4
    ensures Quad(n, bytes)[j] == if 8 * bytes >= 6 * j then EncodeTable(Rest(n, j) / 0x400_0000) else '='
  {
    hide Sextet, Rest, Letter, EncodeTable;
    TopSextet(n, j);
    EncodeTableRight(Sextet(n, j));
  }

  /** The end of the data, one to three bytes, in one group. */
  function LastGroup(tail: seq<byte>): (n: nat)
    requires 1 <= |tail| <= 3
    ensures n < 0x100_0000
  {
    Group(tail[0], if |tail| > 1 then tail[1] else 0, if |tail| > 2 then tail[2] else 0)
  }

  method LoadTail(tail: seq<byte>) returns (x: nat, i: nat)
    requires 1 <= |tail| <= 3
    ensures x == LastGroup(tail) * 0x100 && i == |tail|
  {
    x, i := 0, 0;
    while i < |tail|
      invariant 0 <= i <= |tail|
      invariant x == (if i > 0 then tail[0] as int * 0x100_0000 else 0) + (if i > 1 then tail[1] as int * 0x1_0000 else 0)
        + (if i > 2 then tail[2] as int * 0x100 else 0)
    {
      x := x + tail[i] as int * (if i == 0 then 0x100_0000 else if i == 1 then 0x1_0000 else 0x100);
      i := i + 1;
    }
  }

  /** The characters of the last group, for as many bytes as there were. */
  method PrintTail(word: nat, i: nat, ghost n: nat) returns (code: string)
    requires 1 <= i <= 3 && n < 0x100_0000 && word == n * 0x100
    ensures code == Quad(n, i)
  {
    hide Quad, EncodeTable;
    var x := word;
    code := [];
    for j := 0 to 4
      invariant code == Quad(n, i)[..j]
      invariant 8 * i >= 6 * j - 6 ==> x == Rest(n, j)
    {
      QuadAt(n, i, j);
      if 8 * i >= 6 * j {
        code := code + [EncodeTable(x / 0x400_0000)];
        x := x * 64 % WORD;
      } else {
        code := code + ['='];
      }
    }
  }

  method PrintGroup(a: byte, b: byte, c: byte) returns (code: string)
    ensures code == Quad(Group(a, b, c), 3)
  {
    hide Quad, EncodeTable;
    ghost var n := Group(a, b, c);
    var x: nat := a as int * 0x100_0000 + b as int * 0x1_0000 + c as int * 0x100;
    QuadAt(n, 3, 0);
    QuadAt(n, 3, 1);
    QuadAt(n, 3, 2);
    QuadAt(n, 3, 3);
    code := [EncodeTable(x / 0x400_0000)];
    x := x * 64 % WORD;
    code := code + [EncodeTable(x / 0x400_0000)];
    x := x * 64 % WORD;
    code := code + [EncodeTable(x / 0x400_0000)];
    x := x * 64 % WORD;
    code := code + [EncodeTable(x / 0x400_0000)];
  }

  /** The encoder: groups of three while more than three bytes are left, then the last one to three. */
  method Base64Encode(data: seq<byte>) returns (code: string)
    ensures code == Base64(data)
  {
    hide Group, Quad;
    code := [];
    if data == [] {
      return;
    }
    var s := 0;
    while s < |data| - 3
      invariant 0 <= s < |data| && code + Base64(data[s..]) == Base64(data)
    {
      var quad := PrintGroup(data[s], data[s + 1], data[s + 2]);
      GroupAhead(data, s);
      code := code + quad;
      s := s + 3;
    }
    var x, i := LoadTail(data[s..]);
    var quad := PrintTail(x, i, LastGroup(data[s..]));
    LastQuad(data[s..]);
    code := code + quad;
  }

  lemma GroupAhead(data: seq<byte>, s: nat)
    requires s + 3 < |data|
    ensures Base64(data[s..]) == Quad(Group(data[s], data[s + 1], data[s + 2]), 3) + Base64(data[s + 3..])
  {
    assert data[s..][3..] == data[s + 3..];
  }

  lemma LastQuad(tail: seq<byte>)
    requires 1 <= |tail| <= 3
    ensures Base64(tail) == Quad(LastGroup(tail), |tail|)
  {
  }

  method ReadQuad(a: char, b: char, c: char, d: char) returns (code: seq<byte>)
    requires a as int < 128 && b as int < 128 && c as int < 128 && d as int < 128
    ensures code == QuadBytes(a, b, c, d)
  {
    hide DecodeTable, Byte1, Byte2, Byte3;
    code := [Byte1(DecodeTable(a), DecodeTable(b))];
    if c != '=' {
      code := code + [Byte2(DecodeTable(b), DecodeTable(c))];
    }
    if d != '=' {
      code := code + [Byte3(DecodeTable(c), DecodeTable(d))];
    }
  }

  /** The decoder: in front of every quad line breaks are skipped; padding leaves out bytes. */
  method Base64Decode(text: string) returns (code: seq<byte>)
    requires Decodable(text)
    ensures code == Decoded(text)
  {
    hide IsBreak, QuadBytes, Decodable, Decoded, SkipBreaks;
    code := [];
    var i := 0;
    while i < |text|
      invariant 0 <= i <= |text| && Decodable(text[i..]) && code + Decoded(text[i..]) == Decoded(text)
    {
      ghost var from := i;
      while i < |text| && IsBreak(text[i])
        invariant from <= i <= |text| && SkipBreaks(text[i..]) == SkipBreaks(text[from..])
      {
        SkipOne(text, i);
        i := i + 1;
      }
      SameBehindBreaks(text[from..], text[i..]);
      if i < |text| {
        QuadAhead(text, i);
        var bytes := ReadQuad(text[i], text[i + 1], text[i + 2], text[i + 3]);
        code := code + bytes;
        i := i + 4;
      }
    }
    NothingAhead(text);
  }

  lemma NothingAhead(text: string)
    ensures Decodable(text[|text|..]) && Decoded(text[|text|..]) == []
  {
  }

  lemma SkipOne(text: string, i: nat)
    requires i < |text| && IsBreak(text[i])
    ensures SkipBreaks(text[i..]) == SkipBreaks(text[i + 1..])
  {
    assert text[i..][1..] == text[i + 1..];
  }

  lemma QuadAhead(text: string, i: nat)
    requires i < |text| && !IsBreak(text[i]) && Decodable(text[i..])
    ensures i + 4 <= |text| && (forall k :: i <= k < i + 4 ==> text[k] as int < 128) && Decodable(text[i + 4..])
    ensures Decoded(text[i..]) == QuadBytes(text[i], text[i + 1], text[i + 2], text[i + 3]) + Decoded(text[i + 4..])
  {
    hide QuadBytes, IsBreak;
    var rest := text[i..];
    assert SkipBreaks(rest) == rest && rest[4..] == text[i + 4..];
    assert forall k :: i <= k < i + 4 ==> text[k] == rest[k - i];
  }
}
