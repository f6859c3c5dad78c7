/**
 * Configuration files: the line parser, the printer, and what they make of each other's output,
 * also through the cipher. A setting is kept under its section, a tab and its key.
 */
module ConfFile {
  import opened Bytes
  import opened Collections
  import Tea

  const NUL: byte := 0
  const TAB: byte := 9
  const NEWLINE: byte := 10
  const HASH: byte := 35
  const EQUALS: byte := 61
  const OPEN: byte := 91
  const CLOSE: byte := 93

  /** How many bytes of a line one read takes at most. */
  const MAX_LINE: nat := 4095

  type Text = seq<byte>

  type Settings = map<Text, Text>

  /** The first position of a byte, or the length of the text. */
  function Find(s: Text, c: byte): (i: nat)
    ensures i <= |s| && (i < |s| ==> s[i] == c) && c !in s[..i]
    ensures c in s <==> i < |s|
  {
    if s == [] || s[0] == c then 0 else
    var i := 1 + Find(s[1..], c);
    assert s[..i] == [s[0]] + s[1..][..i - 1];
    i
  }

  /** A read stops behind the end of the line, when the buffer is full, or at the end of the file. */
  function LineLength(file: Text): (n: nat)
    requires file != []
    ensures 0 < n <= |file|
  {
    var i := Find(file, NEWLINE);
    var n := if i < |file| then i + 1 else |file|;
    if n > MAX_LINE then MAX_LINE else n
  }

  /** What the string functions see of a buffer. */
  function CString(s: Text): Text {
    s[..Find(s, NUL)]
  }

  function IsDelimiter(c: byte): bool {
    c == EQUALS || c == NEWLINE
  }

  function SkipDelimiters(s: Text): (r: Text)
    ensures |r| <= |s| && (r != [] ==> !IsDelimiter(r[0]))
  {
    if s != [] && IsDelimiter(s[0]) then SkipDelimiters(s[1..]) else s
  }

  function TokenLength(s: Text): (n: nat)
    ensures n <= |s| && (forall i :: 0 <= i < n ==> !IsDelimiter(s[i])) && (n < |s| ==> IsDelimiter(s[n]))
  {
    if s == [] || IsDelimiter(s[0]) then 0 else 1 + TokenLength(s[1..])
  }

  /** The pieces between delimiters, none of them empty. */
  function Tokens(s: Text): (ts: seq<Text>)
    ensures forall i :: 0 <= i < |ts| ==> ts[i] != [] && forall k :: 0 <= k < |ts[i]| ==> !IsDelimiter(ts[i][k])
    decreases |s|
  {
    var r := SkipDelimiters(s);
    if r == [] then [] else
    var n := TokenLength(r);
    [r[..n]] + Tokens(r[n..])
  }

  datatype Line = Skip | Header(space: Text) | Entry(key: Text, value: Text)

  function ParseLine(line: Text): Line {
    if line == [] || line[0] == HASH then Skip
    else if line[0] == OPEN && |line| >= 2 && line[|line| - 2] == CLOSE then Header(line[1..|line| - 2])
    else
      var ts := Tokens(line);
      Entry(if |ts| > 0 then ts[0] else [], if |ts| > 1 then ts[1] else [])
  }

  function Insert(m: Settings, name: Text, value: Text): Settings {
    if name in m then m else m[name := value]
  }

  /** The settings after reading a file; a setting that was read before stays. */
  function Load(file: Text, space: Text, m: Settings): Settings
    decreases |file|
  {
    if file == [] then m else
    var n := LineLength(file);
    match ParseLine(CString(file[..n]))
    case Skip => Load(file[n..], space, m)
    case Header(s) => Load(file[n..], s, m)
    case Entry(key, value) => Load(file[n..], space, Insert(m, space + [TAB] + key, value))
  }

  function SpaceOf(name: Text): Text {
    name[..Find(name, TAB)]
  }

  /** What follows the tab; without a tab, the whole name again. */
  function KeyOf(name: Text): Text {
    if Find(name, TAB) < |name| then name[Find(name, TAB) + 1..] else name
  }

  function HeaderLine(space: Text): Text {
    [OPEN] + space + [CLOSE, NEWLINE]
  }

  function EntryLine(key: Text, value: Text): Text {
    key + [EQUALS] + value + [NEWLINE]
  }

  /** The header that goes in front of a setting of another section. A zero byte ends what is written of a string. */
  function HeaderFor(space: Text, name: Text): Text {
    if space != SpaceOf(name) then CString(HeaderLine(SpaceOf(name))) else []
  }

  function EntryFor(name: Text, value: Text): Text {
    CString(EntryLine(KeyOf(name), value))
  }

  /** The file that is written for the settings in this order. */
  function Print(order: seq<Text>, m: Settings, space: Text): Text
    requires forall i :: 0 <= i < |order| ==> order[i] in m
  {
    if order == [] then [] else
    var name := order[0];
    HeaderFor(space, name) + EntryFor(name, m[name]) + Print(order[1..], m, SpaceOf(name))
  }

  predicate Printable(s: Text) {
    NEWLINE !in s && NUL !in s
  }

  predicate NoEquals(s: Text) {
    EQUALS !in s
  }

  /** The keys and values that survive a line of their own. */
  predicate LineOk(key: Text, value: Text) {
    || (key == [] && value == [])
    || (key != [] && NoEquals(key) && NoEquals(value) && key[0] != HASH
        && !(key[0] == OPEN && value != [] && value[|value| - 1] == CLOSE))
  }

  lemma {:induction false} TokenLengthOf(s: Text, rest: Text)
    requires (forall i :: 0 <= i < |s| ==> !IsDelimiter(s[i])) && (rest == [] || IsDelimiter(rest[0]))
    ensures TokenLength(s + rest) == |s|
  {
    if s == [] {
      assert s + rest == rest;
    } else {
      assert (s + rest)[1..] == s[1..] + rest;
      TokenLengthOf(s[1..], rest);
    }
  }

  lemma TokensOfClean(s: Text, rest: Text)
    requires s != [] && (forall i :: 0 <= i < |s| ==> !IsDelimiter(s[i])) && (rest == [] || IsDelimiter(rest[0]))
    ensures Tokens(s + rest) == [s] + Tokens(rest)
  {
    hide TokenLength;
    var r := s + rest;
    assert r[0] == s[0] && SkipDelimiters(r) == r;
    TokenLengthOf(s, rest);
    assert r[..|s|] == s && r[|s|..] == rest;
  }

  lemma TokensOfDelimiter(c: byte, rest: Text)
    requires IsDelimiter(c)
    ensures Tokens([c] + rest) == Tokens(rest)
  {
    assert ([c] + rest)[1..] == rest;
  }

  lemma TokensOfEntry(key: Text, value: Text)
    requires Printable(key) && Printable(value) && NoEquals(key) && NoEquals(value) && key != []
    ensures Tokens(EntryLine(key, value)) == if value == [] then [key] else [key, value]
  {
    var end: Text := [NEWLINE];
    TokensOfDelimiter(NEWLINE, []);
    assert end + [] == end;
    assert Tokens([]) == [];
    assert EntryLine(key, value) == key + ([EQUALS] + (value + end));
    TokensOfClean(key, [EQUALS] + (value + end));
    TokensOfDelimiter(EQUALS, value + end);
    if value != [] {
      TokensOfClean(value, end);
    } else {
      assert value + end == end;
    }
  }

  /** A whole line gives its key and value back just if they meet the condition. */
  lemma EntryRoundTrip(key: Text, value: Text)
    requires Printable(key) && Printable(value)
    ensures ParseLine(EntryLine(key, value)) == Entry(key, value) <==> LineOk(key, value)
  {
    var line := EntryLine(key, value);
    assert line[|line| - 2] == if value == [] then EQUALS else value[|value| - 1];
    assert key != [] ==> line[0] == key[0];
    if LineOk(key, value) {
      if key == [] {
        assert line == [EQUALS] + [NEWLINE];
        TokensOfDelimiter(EQUALS, [NEWLINE]);
        TokensOfDelimiter(NEWLINE, []);
        assert [NEWLINE] + [] == [NEWLINE];
      } else {
        TokensOfEntry(key, value);
      }
    }
  }

  predicate SettingOk(name: Text, value: Text) {
    && TAB in name
    && Printable(name) && Printable(value) && LineOk(KeyOf(name), value)
    && |HeaderLine(SpaceOf(name))| <= MAX_LINE && |EntryLine(KeyOf(name), value)| <= MAX_LINE
  }

  lemma NameParts(name: Text)
    requires TAB in name
    ensures name == SpaceOf(name) + [TAB] + KeyOf(name)
    ensures Printable(name) ==> Printable(SpaceOf(name)) && Printable(KeyOf(name))
  {
  }

  lemma FindIn(s: Text, c: byte, rest: Text)
    requires c !in s
    ensures Find(s + [c] + rest, c) == |s| && Find(s, c) == |s|
  {
    var t := s + [c] + rest;
    assert t[|s|] == c;
    assert forall i :: 0 <= i < |s| ==> t[i] == s[i];
    var i := Find(t, c);
    assert i < |t| && t[i] == c;
    assert i <= |s| by {
      assert forall k :: 0 <= k < i ==> t[..i][k] != c;
    }
  }

  /** A line that fits is read as a whole. */
  lemma ReadLine(body: Text, rest: Text)
    requires Printable(body) && |body| < MAX_LINE
    ensures var file := body + [NEWLINE] + rest; LineLength(file) == |body| + 1
    ensures CString(body + [NEWLINE]) == body + [NEWLINE]
  {
    FindIn(body, NEWLINE, rest);
    assert NUL !in body + [NEWLINE];
  }

  lemma ParseHeader(space: Text)
    ensures ParseLine(HeaderLine(space)) == Header(space)
  {
    var line := HeaderLine(space);
    assert line[1..|line| - 2] == space;
  }

  /** A whole line is read and parsed, and the rest is read after it. */
  lemma LoadLine(line: Text, rest: Text, space: Text, m: Settings)
    requires line != [] && |line| <= MAX_LINE && line[|line| - 1] == NEWLINE && Printable(line[..|line| - 1])
    ensures var parsed := ParseLine(line);
      && (parsed.Skip? ==> Load(line + rest, space, m) == Load(rest, space, m))
      && (parsed.Header? ==> Load(line + rest, space, m) == Load(rest, parsed.space, m))
      && (parsed.Entry? ==> Load(line + rest, space, m) == Load(rest, space, Insert(m, space + [TAB] + parsed.key, parsed.value)))
  {
    hide ParseLine;
    var body := line[..|line| - 1];
    assert line == body + [NEWLINE];
    ReadLine(body, rest);
    assert (line + rest)[..|line|] == line && (line + rest)[|line|..] == rest;
  }

  lemma LoadHeader(space: Text, rest: Text, before: Text, m: Settings)
    requires Printable(space) && |HeaderLine(space)| <= MAX_LINE
    ensures Load(HeaderLine(space) + rest, before, m) == Load(rest, space, m)
  {
    hide ParseLine, Load;
    assert HeaderLine(space)[..|space| + 2] == [OPEN] + space + [CLOSE];
    ParseHeader(space);
    LoadLine(HeaderLine(space), rest, before, m);
  }

  lemma LoadEntry(key: Text, value: Text, rest: Text, space: Text, m: Settings)
    requires Printable(key) && Printable(value) && LineOk(key, value) && |EntryLine(key, value)| <= MAX_LINE
    ensures Load(EntryLine(key, value) + rest, space, m) == Load(rest, space, Insert(m, space + [TAB] + key, value))
  {
    hide LineOk, ParseLine, Load, Insert;
    assert EntryLine(key, value)[..|key| + 1 + |value|] == key + [EQUALS] + value;
    EntryRoundTrip(key, value);
    LoadLine(EntryLine(key, value), rest, space, m);
  }

  /** Zero bytes behind the last line change nothing. */
  lemma LoadPadding(k: nat, space: Text, m: Settings)
    requires k < Tea.BLOCK
    ensures Load(Zeros(k), space, m) == m
  {
    if k > 0 {
      var z: Text := Zeros(k);
      assert NEWLINE !in z;
      assert LineLength(z) == k;
      assert z[..k] == z && z[k..] == [];
      assert CString(z) == [];
    }
  }

  /** The settings of a list of names, added to those there are. */
  function Added(order: seq<Text>, m: Settings, before: Settings): Settings
    requires forall i :: 0 <= i < |order| ==> order[i] in m
  {
    if order == [] then before else Added(order[1..], m, Insert(before, order[0], m[order[0]]))
  }

  /** Lines without a zero byte are written whole. */
  lemma WholeLines(space: Text, name: Text, value: Text)
    requires Printable(name) && Printable(value)
    ensures EntryFor(name, value) == EntryLine(KeyOf(name), value)
    ensures HeaderFor(space, name) == if space != SpaceOf(name) then HeaderLine(SpaceOf(name)) else []
  {
    assert NUL !in EntryLine(KeyOf(name), value) && NUL !in HeaderLine(SpaceOf(name));
  }

  lemma PrintHead(order: seq<Text>, m: Settings, space: Text, zeros: Text)
    requires order != [] && forall i :: 0 <= i < |order| ==> order[i] in m
    requires Printable(order[0]) && Printable(m[order[0]])
    ensures var name := order[0];
      var tail := EntryLine(KeyOf(name), m[name]) + (Print(order[1..], m, SpaceOf(name)) + zeros);
      Print(order, m, space) + zeros == if space != SpaceOf(name) then HeaderLine(SpaceOf(name)) + tail else tail
  {
    hide EntryLine, HeaderLine, EntryFor, HeaderFor, SpaceOf, KeyOf;
    var name := order[0];
    WholeLines(space, name, m[name]);
    var header, entry, rest := HeaderFor(space, name), EntryFor(name, m[name]), Print(order[1..], m, SpaceOf(name));
    Regroup(header, entry, rest);
    Regroup(header, entry + rest, zeros);
    Regroup(entry, rest, zeros);
    Regroup([], [], entry + (rest + zeros));
  }

  /** Reading a printed file adds its settings in order, whatever zero bytes follow. */
  lemma {:induction false} LoadPrint(order: seq<Text>, m: Settings, space: Text, before: Settings, k: nat)
    requires forall i :: 0 <= i < |order| ==> order[i] in m && SettingOk(order[i], m[order[i]])
    requires k < Tea.BLOCK
    ensures Load(Print(order, m, space) + Zeros(k), space, before) == Added(order, m, before)
    decreases |order|
  {
    hide Load, LineOk, HeaderLine, EntryLine, Insert, SpaceOf, KeyOf, Printable;
    var zeros: Text := Zeros(k);
    if order == [] {
      assert Print(order, m, space) + zeros == zeros;
      LoadPadding(k, space, before);
    } else {
      var name, s, key, value := order[0], SpaceOf(order[0]), KeyOf(order[0]), m[order[0]];
      NameParts(name);
      PrintHead(order, m, space, zeros);
      var rest := Print(order[1..], m, s);
      if space != s {
        LoadHeader(s, EntryLine(key, value) + (rest + zeros), space, before);
      }
      LoadEntry(key, value, rest + zeros, s, before);
      LoadPrint(order[1..], m, s, Insert(before, name, value), k);
    }
  }

  /** The order lists every setting once. */
  ghost predicate Lists(order: seq<Text>, m: Settings) {
    && (forall i :: 0 <= i < |order| ==> order[i] in m)
    && (forall name :: name in m ==> name in order)
    && NoRepeats(order)
  }

  lemma {:induction false} AddedAll(order: seq<Text>, m: Settings, before: Settings)
    requires forall i :: 0 <= i < |order| ==> order[i] in m && order[i] !in before
    requires NoRepeats(order)
    ensures forall name :: name in Added(order, m, before) <==> name in before || name in order
    ensures forall name :: name in Added(order, m, before) ==> Added(order, m, before)[name] == if name in before then before[name] else m[name]
    decreases |order|
  {
    if order != [] {
      AddedAll(order[1..], m, Insert(before, order[0], m[order[0]]));
    }
  }

  /** Reading a printed file restores the settings, in whatever order they were printed. */
  lemma LoadPrinted(order: seq<Text>, m: Settings, k: nat)
    requires Lists(order, m) && k < Tea.BLOCK && forall name :: name in m ==> SettingOk(name, m[name])
    ensures Load(Print(order, m, []) + Zeros(k), [], map[]) == m
  {
    hide Load, Print, SettingOk;
    LoadPrint(order, m, [], map[], k);
    AddedAll(order, m, map[]);
  }

  // Which single setting comes back from its file: neither longer lines nor other bytes do.

  /** A line as one read gives it: a newline is at its end only, and no zero byte is in it. */
  predicate IsLine(line: Text) {
    |line| <= MAX_LINE && NUL !in line && forall i :: 0 <= i < |line| - 1 ==> line[i] != NEWLINE
  }

  lemma ReadIsLine(file: Text)
    requires file != []
    ensures IsLine(CString(file[..LineLength(file)])) && |CString(file[..LineLength(file)])| <= |file|
  {
    var n := LineLength(file);
    assert forall i :: 0 <= i < n - 1 ==> file[i] == file[..Find(file, NEWLINE)][i];
    var line := CString(file[..n]);
    assert forall i :: 0 <= i < |line| ==> line[i] == file[i];
  }

  /** The tokens of a line are cut out of it in order. */
  lemma {:induction false} TokensInside(s: Text)
    ensures var ts := Tokens(s);
      && (|ts| > 0 ==> |ts[0]| <= |s| && (NUL !in s ==> NUL !in ts[0]))
      && (|ts| > 1 ==> |ts[0]| + 1 + |ts[1]| <= |s| && (NUL !in s ==> NUL !in ts[1]))
    decreases |s|
  {
    if s != [] {
      if IsDelimiter(s[0]) {
        TokensOfDelimiter(s[0], s[1..]);
        assert s == [s[0]] + s[1..];
        TokensInside(s[1..]);
      } else {
        FirstToken(s);
        var n := TokenLength(s);
        TokensInside(s[n..]);
        if n < |s| {
          TokensOfDelimiter(s[n], s[n + 1..]);
          assert s[n..] == [s[n]] + s[n + 1..];
          TokensInside(s[n + 1..]);
        }
      }
    }
  }

  lemma FirstToken(s: Text)
    requires s != [] && !IsDelimiter(s[0])
    ensures Tokens(s) == [s[..TokenLength(s)]] + Tokens(s[TokenLength(s)..])
  {
    assert SkipDelimiters(s) == s;
  }

  /** What a setting read from a file always is. */
  predicate Readable(name: Text, value: Text) {
    TAB in name && Printable(name) && Printable(value) && |HeaderLine(SpaceOf(name))| <= MAX_LINE
  }

  predicate SpaceOk(space: Text) {
    Printable(space) && |space| + 3 <= MAX_LINE
  }

  lemma ParsedParts(line: Text)
    requires IsLine(line)
    ensures var parsed := ParseLine(line);
      && (parsed.Header? ==> SpaceOk(parsed.space))
      && (parsed.Entry? ==> Printable(parsed.key) && Printable(parsed.value))
      && (parsed.Entry? ==> |parsed.key| + |parsed.value| + (if parsed.value == [] then 0 else 1) <= |line|)
      && (parsed.Entry? && parsed.key == [] ==> parsed.value == [])
  {
    hide Tokens;
    TokensInside(line);
    TokensClean(line);
  }

  lemma TokensClean(s: Text)
    ensures var ts := Tokens(s); forall i :: 0 <= i < |ts| ==> ts[i] != [] && NEWLINE !in ts[i]
  {
  }

  lemma NameIsReadable(space: Text, key: Text, value: Text)
    requires SpaceOk(space) && Printable(key) && Printable(value)
    ensures Readable(space + [TAB] + key, value)
  {
    var name := space + [TAB] + key;
    assert name[|space|] == TAB;
    assert Find(name, TAB) <= |space| by {
      assert forall k :: 0 <= k < Find(name, TAB) ==> name[..Find(name, TAB)][k] != TAB;
    }
  }

  /** Reading adds settings that are readable and no longer than the file allows. */
  lemma {:induction false} LoadAdds(file: Text, space: Text, m: Settings, name: Text)
    requires SpaceOk(space)
    ensures name in m ==> name in Load(file, space, m) && Load(file, space, m)[name] == m[name]
    ensures name !in m && name in Load(file, space, m) ==>
      var value := Load(file, space, m)[name];
      Readable(name, value) && |name| + |value| <= MAX_LINE - 2 + |file|
    decreases |file|
  {
    hide ParseLine, CString, Readable, LineLength, Printable;
    if file != [] {
      var n := LineLength(file);
      var line := CString(file[..n]);
      ReadIsLine(file);
      ParsedParts(line);
      match ParseLine(line)
      case Skip =>
        LoadAdds(file[n..], space, m, name);
      case Header(other) =>
        LoadAdds(file[n..], other, m, name);
      case Entry(key, value) =>
        NameIsReadable(space, key, value);
        LoadAdds(file[n..], space, Insert(m, space + [TAB] + key, value), name);
    }
  }

  /** What is left behind an entry that is one or two bytes too long for its line gives an empty setting. */
  lemma LoadBlank(rest: Text, space: Text, m: Settings)
    requires rest == [NEWLINE] || rest == [EQUALS, NEWLINE]
    ensures Load(rest, space, m) == Insert(m, space + [TAB], [])
  {
    assert Find(rest, NEWLINE) == |rest| - 1;
    assert LineLength(rest) == |rest| && rest[..|rest|] == rest && rest[|rest|..] == [];
    assert CString(rest) == rest;
    TokensOfDelimiter(NEWLINE, []);
    TokensOfDelimiter(EQUALS, [NEWLINE]);
    assert [NEWLINE] + [] == [NEWLINE] && [EQUALS] + [NEWLINE] == [EQUALS, NEWLINE];
    assert space + [TAB] + [] == space + [TAB];
  }

  lemma SameKey(space: Text, key: Text, other: Text)
    requires space + [TAB] + key == space + [TAB] + other
    ensures key == other
  {
    assert key == (space + [TAB] + key)[|space| + 1..];
    assert other == (space + [TAB] + other)[|space| + 1..];
  }

  lemma ReadEntry(key: Text, value: Text)
    requires Printable(key) && Printable(value)
    ensures var line := EntryLine(key, value);
      && LineLength(line) == (if |line| <= MAX_LINE then |line| else MAX_LINE)
      && CString(line[..LineLength(line)]) == line[..LineLength(line)]
  {
    var line, body := EntryLine(key, value), key + [EQUALS] + value;
    FindIn(body, NEWLINE, []);
    assert line == body + [NEWLINE] + [];
    assert NUL !in line;
    assert forall t: Text :: t == line[..LineLength(line)] ==> NUL !in t;
  }

  lemma ShortEntry(key: Text, value: Text, space: Text)
    requires Printable(key) && Printable(value) && |EntryLine(key, value)| <= MAX_LINE
    ensures Load(EntryLine(key, value), space, map[]) == map[space + [TAB] + key := value] <==> LineOk(key, value)
  {
    hide LineOk, ParseLine, LineLength, CString;
    var line := EntryLine(key, value);
    ReadEntry(key, value);
    EntryRoundTrip(key, value);
    assert line[..|line|] == line && line[|line|..] == [];
    if Load(line, space, map[]) == map[space + [TAB] + key := value] {
      var parsed := ParseLine(line);
      assert space + [TAB] + key in Load(line, space, map[]);
      assert parsed.Entry? && space + [TAB] + parsed.key == space + [TAB] + key;
      SameKey(space, parsed.key, key);
    }
  }

  /** The rest of a line that is too long cannot bring back its setting. */
  lemma RestAdds(key: Text, value: Text, space: Text, now: Text, m: Settings)
    requires |EntryLine(key, value)| > MAX_LINE && SpaceOk(now) && space + [TAB] + key !in m
    ensures Load(EntryLine(key, value)[MAX_LINE..], now, m) != map[space + [TAB] + key := value]
  {
    hide Load;
    LoadAdds(EntryLine(key, value)[MAX_LINE..], now, m, space + [TAB] + key);
  }

  lemma LongEntry(key: Text, value: Text, space: Text)
    requires Printable(key) && Printable(value) && SpaceOk(space) && |EntryLine(key, value)| > MAX_LINE
    ensures Load(EntryLine(key, value), space, map[]) != map[space + [TAB] + key := value]
  {
    hide ParseLine, LineLength, CString, EntryLine, Printable, SpaceOk;
    var text, name := EntryLine(key, value), space + [TAB] + key;
    ReadEntry(key, value);
    ReadIsLine(text);
    var line, rest := text[..MAX_LINE], text[MAX_LINE..];
    ParsedParts(line);
    match ParseLine(line)
    case Skip =>
      RestAdds(key, value, space, space, map[]);
    case Header(other) =>
      RestAdds(key, value, space, other, map[]);
    case Entry(k, v) =>
      var m: Settings := map[space + [TAB] + k := v];
      if name !in m {
        RestAdds(key, value, space, space, m);
      } else {
        SameKey(space, k, key);
        LoadAdds(rest, space, m, name);
        if v == value {
          BlankRest(key, value);
          LoadBlank(rest, space, m);
          assert key == [] || space + [TAB] != name;
          assert space + [TAB] + [] == space + [TAB];
        }
      }
  }

  lemma BlankRest(key: Text, value: Text)
    requires |EntryLine(key, value)| > MAX_LINE && |key| + |value| + (if value == [] then 0 else 1) <= MAX_LINE
    ensures var rest := EntryLine(key, value)[MAX_LINE..]; rest == [NEWLINE] || rest == [EQUALS, NEWLINE]
    ensures key != [] || value != []
  {
  }

  lemma {:induction false} FindEarly(s: Text, c: byte, more: Text)
    requires c in s
    ensures Find(s + more, c) == Find(s, c)
    decreases |s|
  {
    if s[0] != c {
      assert (s + more)[1..] == s[1..] + more;
      FindEarly(s[1..], c, more);
    }
  }

  /** Zero bytes behind whole lines change nothing. */
  lemma {:induction false} ZerosIgnored(file: Text, k: nat, space: Text, m: Settings)
    requires k < Tea.BLOCK && file != [] && file[|file| - 1] == NEWLINE
    ensures Load(file + Zeros(k), space, m) == Load(file, space, m)
    decreases |file|
  {
    hide ParseLine, CString, Find;
    var n, more := LineLength(file), file + Zeros(k);
    FindEarly(file, NEWLINE, Zeros(k));
    assert LineLength(more) == n && more[..n] == file[..n] && more[n..] == file[n..] + Zeros(k);
    var parsed := ParseLine(CString(file[..n]));
    var now := if parsed.Header? then parsed.space else space;
    var added := if parsed.Entry? then Insert(m, space + [TAB] + parsed.key, parsed.value) else m;
    if n < |file| {
      ZerosIgnored(file[n..], k, now, added);
    } else {
      assert file[n..] + Zeros(k) == Zeros(k);
      LoadPadding(k, now, added);
    }
  }

  /** The file of a single setting. */
  function FileOf(name: Text, value: Text): Text {
    Print([name], map[name := value], [])
  }

  lemma LoadFileOf(name: Text, value: Text)
    requires Readable(name, value)
    ensures Load(FileOf(name, value), [], map[]) == Load(EntryLine(KeyOf(name), value), SpaceOf(name), map[])
  {
    hide Load, EntryLine, HeaderLine, SpaceOf, KeyOf;
    var space, line := SpaceOf(name), EntryLine(KeyOf(name), value);
    NameParts(name);
    OneSetting(name, value);
    if space != [] {
      LoadHeader(space, line, [], map[]);
    }
  }

  lemma OneSetting(name: Text, value: Text)
    requires Printable(name) && Printable(value)
    ensures FileOf(name, value) == if SpaceOf(name) != [] then HeaderLine(SpaceOf(name)) + EntryLine(KeyOf(name), value) else EntryLine(KeyOf(name), value)
    ensures FileOf(name, value) != [] && FileOf(name, value)[|FileOf(name, value)| - 1] == NEWLINE
  {
    hide HeaderLine, SpaceOf, KeyOf, Printable;
    var order: seq<Text>, m: Settings := [name], map[name := value];
    var entry := EntryLine(KeyOf(name), value);
    assert order[1..] == [];
    PrintNothing(m, SpaceOf(name));
    PrintHead(order, m, [], []);
    Regroup([], [], FileOf(name, value));
    Regroup([], [], entry);
  }

  /**
   * A setting comes back from its own file just if its name has a tab, name and value hold no
   * newline and no zero byte, its header and its entry each fit a line of their own, and the entry
   * line gives key and value back.
   */
  lemma FileRoundTrip(name: Text, value: Text)
    ensures Load(FileOf(name, value), [], map[]) == map[name := value] <==> SettingOk(name, value)
  {
    hide Load, LineOk, EntryLine, FileOf;
    LoadAdds(FileOf(name, value), [], map[], name);
    if Readable(name, value) {
      var space, key := SpaceOf(name), KeyOf(name);
      NameParts(name);
      LoadFileOf(name, value);
      if |EntryLine(key, value)| <= MAX_LINE {
        ShortEntry(key, value, space);
      } else {
        LongEntry(key, value, space);
      }
    }
  }

  /** A key and a value that survive a whole line are lost if the line is too long. */
  lemma LongValueIsLost()
    ensures var name, value: Text := [TAB, 107], seq(5000, _ => 120);
      && Printable(KeyOf(name)) && Printable(value) && ParseLine(EntryLine(KeyOf(name), value)) == Entry(KeyOf(name), value)
      && Load(FileOf(name, value), [], map[]) != map[name := value]
  {
    var name, value: Text := [TAB, 107], seq(5000, _ => 120);
    assert Find(name, TAB) == 0 && KeyOf(name) == [107];
    EntryRoundTrip(KeyOf(name), value);
    FileRoundTrip(name, value);
    hide Load, FileOf, ParseLine;
  }

  /** An entry that is one byte too long is read whole, and its newline as an empty setting. */
  lemma LoadOneOver(key: Text, value: Text, space: Text, m: Settings)
    requires Printable(key) && Printable(value) && NoEquals(key) && NoEquals(value) && key != [] && value != []
    requires key[0] != HASH && key[0] != OPEN && |EntryLine(key, value)| == MAX_LINE + 1
    ensures Load(EntryLine(key, value), space, m) == Insert(Insert(m, space + [TAB] + key, value), space + [TAB], [])
  {
    hide Insert, CString, LineLength;
    var line := key + [EQUALS] + value;
    ReadEntry(key, value);
    assert EntryLine(key, value)[..MAX_LINE] == line && EntryLine(key, value)[MAX_LINE..] == [NEWLINE];
    assert Tokens(line) == [key, value] by {
      assert line == key + ([EQUALS] + value) && value + [] == value && Tokens([]) == [];
      TokensOfClean(key, [EQUALS] + value);
      TokensOfDelimiter(EQUALS, value);
      TokensOfClean(value, []);
    }
    assert line[0] == key[0];
    LoadBlank([NEWLINE], space, Insert(m, space + [TAB] + key, value));
  }

  /**
   * For several settings the condition is not necessary: an empty setting beside one whose entry
   * is a byte too long makes both come back.
   */
  lemma EmptySettingHelps()
    ensures var blank, name, value: Text := [TAB], [TAB, 107], seq(MAX_LINE - 2, _ => 120);
      var m: Settings := map[blank := [], name := value];
      Lists([blank, name], m) && !SettingOk(name, value) && Load(Print([blank, name], m, []), [], map[]) == m
  {
    hide Load, Find;
    var blank, name, value: Text := [TAB], [TAB, 107], seq(MAX_LINE - 2, _ => 120);
    var m: Settings := map[blank := [], name := value];
    var order: seq<Text>, key: Text := [blank, name], [107];
    assert Find(blank, TAB) == 0 && Find(name, TAB) == 0 by {
      FindIn([], TAB, []);
      FindIn([], TAB, key);
      assert [] + [TAB] + [] == blank && [] + [TAB] + key == name;
    }
    assert SpaceOf(blank) == [] && KeyOf(blank) == [] && SpaceOf(name) == [] && KeyOf(name) == key;
    assert |EntryLine(key, value)| == MAX_LINE + 1;
    assert order[1..] == [name] && order[1..][1..] == [];
    assert Print(order, m, []) == EntryLine([], []) + EntryLine(key, value) by {
      PrintNothing(m, []);
      PrintHead(order, m, [], []);
      PrintHead(order[1..], m, [], []);
      Regroup([], [], Print(order, m, []));
      Regroup([], [], Print(order[1..], m, []));
      Regroup([], [], EntryLine(key, value));
    }
    assert [] + [TAB] + [] == blank && [] + [TAB] == blank && [] + [TAB] + key == name;
    LoadEntry([], [], EntryLine(key, value), [], map[]);
    LoadOneOver(key, value, [], map[blank := []]);
  }

  // The file on disk, in the clear or enciphered.

  /** What is written for a printed text. */
  function ToDisk(text: Text, cipher: Text): Text {
    if cipher == [] then text else
    match Tea.Encode(text, cipher)
    case Coded(bytes) => Tea.HexOf(bytes)
    case Failed(_) => []
  }

  /** What is parsed of a file; if it cannot be deciphered, its own first half takes the place of the text. */
  function FromDisk(file: Text, cipher: Text): Text
    requires cipher != [] ==> |file| % 2 == 0
  {
    if cipher == [] then file else
    var data := Tea.UnhexOf(file);
    match Tea.Decode(data, cipher)
    case Coded(bytes) => bytes
    case Failed(_) => file[..|data|]
  }

  /** How many bytes the code allocates for the hexadecimal form of a text. */
  function BufferSize(text: Text): nat {
    2 * (|text| + 7)
  }

  /** The hexadecimal form and the zero behind it fit their buffer just if the last block is not filled by seven zeros. */
  lemma HexFitsBuffer(text: Text, cipher: Text)
    requires text != [] && cipher != []
    ensures |ToDisk(text, cipher)| + 1 <= BufferSize(text) <==> |text| % Tea.BLOCK != 1
  {
    hide Tea.EncodeBlocks, Tea.KeyOf;
  }

  /** A concrete printed setting whose enciphered file overruns the buffer, with any cipher. */
  lemma PrintedTextOverruns(cipher: Text)
    requires cipher != []
    ensures var text := FileOf([TAB, 97], seq(6, _ => 120)); |ToDisk(text, cipher)| + 1 > BufferSize(text)
  {
    hide FileOf, ToDisk, Find;
    var name, value: Text := [TAB, 97], seq(6, _ => 120);
    FindIn([], TAB, [97]);
    assert [] + [TAB] + [97] == name;
    assert SpaceOf(name) == [] && KeyOf(name) == [97];
    OneSetting(name, value);
    assert |EntryLine(KeyOf(name), value)| == 9;
    HexFitsBuffer(FileOf(name, value), cipher);
  }

  /** A printed text comes back from disk with fewer than eight zero bytes behind it. */
  lemma DiskRoundTrip(text: Text, cipher: Text) returns (k: nat)
    ensures cipher != [] ==> |ToDisk(text, cipher)| % 2 == 0
    ensures k < Tea.BLOCK && FromDisk(ToDisk(text, cipher), cipher) == text + Zeros(k)
  {
    hide Tea.EncodeBlocks, Tea.DecodeBlocks, Tea.HexOf, Tea.UnhexOf, Tea.KeyOf;
    k := 0;
    if cipher == [] {
      assert text + Zeros(0) == text;
    } else if text == [] {
      assert Tea.UnhexOf([]) == [] by { NoHex(); }
    } else {
      k := Tea.FillLength(|text|);
      Tea.DecodeEncode(text, cipher);
      Tea.UnhexHex(Tea.Encode(text, cipher).bytes);
    }
  }

  lemma NoHex()
    ensures Tea.UnhexOf([]) == [] && Tea.HexOf([]) == []
  {
  }

  /** Settings that fit their lines survive printing, enciphering, deciphering and parsing. */
  lemma SettingsSurvive(order: seq<Text>, m: Settings, cipher: Text)
    requires Lists(order, m) && forall name :: name in m ==> SettingOk(name, m[name])
    ensures var file := ToDisk(Print(order, m, []), cipher);
      (cipher != [] ==> |file| % 2 == 0) && Load(FromDisk(file, cipher), [], map[]) == m
  {
    hide Load, Print, SettingOk, ToDisk, FromDisk;
    var k := DiskRoundTrip(Print(order, m, []), cipher);
    LoadPrinted(order, m, k);
  }

  /** The same through the file on disk, with any cipher. */
  lemma SettingRoundTrip(name: Text, value: Text, cipher: Text)
    ensures var file := ToDisk(FileOf(name, value), cipher);
      && (cipher != [] ==> |file| % 2 == 0)
      && (Load(FromDisk(file, cipher), [], map[]) == map[name := value] <==> SettingOk(name, value))
  {
    hide Load, FileOf, ToDisk, FromDisk;
    var k := DiskRoundTrip(FileOf(name, value), cipher);
    LoadAdds(FileOf(name, value) + Zeros(k), [], map[], name);
    if Readable(name, value) {
      OneSetting(name, value);
      ZerosIgnored(FileOf(name, value), k, [], map[]);
      FileRoundTrip(name, value);
    }
  }

  method SkipLeading(s: Text) returns (r: Text)
    ensures r == SkipDelimiters(s)
  {
    var i := 0;
    assert s[0..] == s;
    while i < |s| && IsDelimiter(s[i])
      invariant i <= |s| && SkipDelimiters(s[i..]) == SkipDelimiters(s)
    {
      assert s[i..][1..] == s[i + 1..];
      i := i + 1;
    }
    r := s[i..];
  }

  method NextToken(s: Text) returns (found: bool, token: Text, rest: Text)
    ensures Tokens(s) == if found then [token] + Tokens(rest) else []
    ensures found ==> |rest| < |s|
  {
    hide SkipDelimiters;
    var r := SkipLeading(s);
    found, token, rest := r != [], [], [];
    if found {
      var n := 0;
      assert r[0..] == r;
      while n < |r| && !IsDelimiter(r[n])
        invariant n <= |r| && n + TokenLength(r[n..]) == TokenLength(r)
      {
        assert r[n..][1..] == r[n + 1..];
        n := n + 1;
      }
      token, rest := r[..n], r[n..];
    }
  }

  /** The first two tokens of a line; the others are passed over. */
  method ParseEntry(line: Text) returns (key: Text, value: Text)
    ensures var ts := Tokens(line);
      key == (if |ts| > 0 then ts[0] else []) && value == if |ts| > 1 then ts[1] else []
  {
    key, value := [], [];
    ghost var ts := Tokens(line);
    var i := 0;
    var more, token, rest := NextToken(line);
    while more
      invariant i <= |ts| && ts[i..] == if more then [token] + Tokens(rest) else []
      invariant key == (if i > 0 then ts[0] else []) && value == if i > 1 then ts[1] else []
      decreases more, |rest|
    {
      if i == 0 {
        key := token;
      } else if i == 1 {
        value := token;
      }
      assert ts[i] == ts[i..][0] && ts[i + 1..] == ts[i..][1..];
      more, token, rest := NextToken(rest);
      i := i + 1;
    }
    assert i == |ts| by {
      assert |ts[i..]| == 0;
    }
  }

  class Configuration {
    const cipher: Text
    var settings: Settings

    constructor (cipher: Text)
      ensures this.cipher == cipher && settings == map[]
    {
      this.cipher, settings := cipher, map[];
    }

    /** Reads a text line by line. */
    method LoadText(text: Text)
      modifies this
      ensures settings == Load(text, [], old(settings))
    {
      hide ParseLine, CString;
      var space: Text := [];
      var file := text;
      while file != []
        invariant Load(file, space, settings) == Load(text, [], old(settings))
        decreases |file|
      {
        var n := LineLength(file);
        var line := CString(file[..n]);
        LineCases(line);
        file := file[n..];
        if line == [] || line[0] == HASH {
          continue;
        }
        if line[0] == OPEN && |line| >= 2 && line[|line| - 2] == CLOSE {
          space := line[1..|line| - 2];
          continue;
        }
        var key, value := ParseEntry(line);
        var name := space + [TAB] + key;
        if name !in settings {
          settings := settings[name := value];
        }
      }
    }

    method LoadConfFile(file: Text)
      requires cipher != [] ==> |file| % 2 == 0
      modifies this
      ensures settings == Load(FromDisk(file, cipher), [], old(settings))
    {
      hide Load;
      if |cipher| < 1 {
        LoadText(file);
      } else {
        var data := Tea.HexToAscii(file);
        var plain := Tea.TeaDecode(data, cipher);
        LoadText(if plain.Coded? then plain.bytes else file[..|data|]);
      }
    }

    /** Prints the settings section by section. */
    method PrintText(order: seq<Text>) returns (text: Text)
      requires forall i :: 0 <= i < |order| ==> order[i] in settings
      ensures text == Print(order, settings, [])
    {
      hide Print, CString, HeaderLine, EntryLine, SpaceOf, KeyOf;
      text := [];
      var space: Text := [];
      var todo := order;
      while todo != []
        invariant forall i :: 0 <= i < |todo| ==> todo[i] in settings
        invariant text + Print(todo, settings, space) == Print(order, settings, [])
        decreases |todo|
      {
        var name := todo[0];
        PrintStep(text, todo, settings, space);
        if space != SpaceOf(name) {
          space := SpaceOf(name);
          text := text + CString(HeaderLine(space));
        } else {
          Regroup(text, [], []);
        }
        text := text + CString(EntryLine(KeyOf(name), settings[name]));
        todo := todo[1..];
      }
      assert text + Print([], settings, space) == text by { PrintNothing(settings, space); }
    }

    /** Writes the settings in the order of an enumeration of their names. */
    method UpdateConfFile(order: seq<Text>) returns (file: Text)
      requires Lists(order, settings)
      ensures file == ToDisk(Print(order, settings, []), cipher)
    {
      hide Print;
      var text := PrintText(order);
      file := text;
      if |cipher| > 0 {
        var coded := Tea.TeaEncode(text, cipher);
        file := [];
        if coded.Coded? {
          file := Tea.AsciiToHex(coded.bytes);
        }
      }
    }
  }

  lemma PrintStep(text: Text, order: seq<Text>, m: Settings, space: Text)
    requires order != [] && forall i :: 0 <= i < |order| ==> order[i] in m
    ensures var name := order[0];
      text + Print(order, m, space) == text + HeaderFor(space, name) + EntryFor(name, m[name]) + Print(order[1..], m, SpaceOf(name))
  {
    hide HeaderFor, EntryFor, SpaceOf;
    var name := order[0];
    var header, entry, rest := HeaderFor(space, name), EntryFor(name, m[name]), Print(order[1..], m, SpaceOf(name));
    Regroup(text, header + entry, rest);
    Regroup(text, header, entry);
  }

  lemma PrintNothing(m: Settings, space: Text)
    ensures Print([], m, space) == []
  {
  }

  lemma LineCases(line: Text)
    ensures ParseLine(line) ==
      if line == [] || line[0] == HASH then Skip
      else if line[0] == OPEN && |line| >= 2 && line[|line| - 2] == CLOSE then Header(line[1..|line| - 2])
      else Entry(if |Tokens(line)| > 0 then Tokens(line)[0] else [], if |Tokens(line)| > 1 then Tokens(line)[1] else [])
  {
  }
}
