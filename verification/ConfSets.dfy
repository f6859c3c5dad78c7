/**
 * Which sets of settings come back from the configuration file that is printed for them. Every
 * printed line is read as at most one setting with a key, so when all of them come back none was lost.
 */
module ConfSets {
  import opened Bytes
  import opened Collections
  import opened ConfFile
  import Tea

  /** How much of an entry has to be read to get its key and value. */
  function Width(key: Text, value: Text): nat {
    |key| + |value| + if value == [] then 0 else 1
  }

  /** What the first read takes of an entry. */
  function FirstRead(key: Text, value: Text): (read: Text)
    ensures |read| >= 2
  {
    var line := EntryLine(key, value);
    if |line| <= MAX_LINE then line else line[..MAX_LINE]
  }

  /** The keys and values that the first read gives back. */
  predicate EntryOk(key: Text, value: Text) {
    || (key == [] && value == [])
    || (key != [] && NoEquals(key) && NoEquals(value) && key[0] != HASH && Width(key, value) <= MAX_LINE
        && var read := FirstRead(key, value); !(key[0] == OPEN && read[|read| - 2] == CLOSE))
  }

  /**
   * What a setting has to be to come back together with others: behind an entry that is a byte or two
   * longer than a read there is a line without key and value, which is read as the section's empty setting.
   */
  predicate SettingIn(name: Text, value: Text, m: Settings) {
    && Readable(name, value) && EntryOk(KeyOf(name), value)
    && (|EntryLine(KeyOf(name), value)| > MAX_LINE ==> SpaceOf(name) + [TAB] in m)
  }

  /** For an entry that fits a line this is the condition of a setting on its own. */
  lemma FitsAlone(name: Text, value: Text, m: Settings)
    requires |EntryLine(KeyOf(name), value)| <= MAX_LINE
    ensures SettingIn(name, value, m) <==> SettingOk(name, value)
  {
    hide SpaceOf, KeyOf, Find;
    var line := EntryLine(KeyOf(name), value);
    assert line[|line| - 2] == if value == [] then EQUALS else value[|value| - 1];
  }

  // What reading one printed entry does.

  function NextSpace(parsed: Line, space: Text): Text {
    if parsed.Header? then parsed.space else space
  }

  function AddLine(parsed: Line, space: Text, m: Settings): Settings {
    if parsed.Entry? then Insert(m, space + [TAB] + parsed.key, parsed.value) else m
  }

  /** What the first read of a setting's entry is parsed as. */
  function ParsedEntry(name: Text, value: Text): Line {
    ParseLine(FirstRead(KeyOf(name), value))
  }

  predicate Over(name: Text, value: Text) {
    |EntryLine(KeyOf(name), value)| > MAX_LINE
  }

  /** The settings after the entry was read in a section; what is left of a long one is read as an empty setting. */
  function AfterEntry(name: Text, value: Text, space: Text, m: Settings): Settings {
    var parsed := ParsedEntry(name, value);
    var added := AddLine(parsed, space, m);
    if Over(name, value) then Insert(added, NextSpace(parsed, space) + [TAB], []) else added
  }

  lemma FullRead(line: Text, rest: Text)
    requires |line| > MAX_LINE && line[|line| - 1] == NEWLINE && Printable(line[..|line| - 1])
    ensures LineLength(line + rest) == MAX_LINE && CString(line[..MAX_LINE]) == line[..MAX_LINE]
  {
    hide Find;
    var body := line[..|line| - 1];
    assert line + rest == body + [NEWLINE] + rest;
    FindIn(body, NEWLINE, rest);
    assert line[..MAX_LINE] == body[..MAX_LINE];
    assert NUL !in body[..MAX_LINE];
  }

  /** A line that is too long for one read. */
  lemma LoadLong(line: Text, rest: Text, space: Text, m: Settings)
    requires |line| > MAX_LINE && line[|line| - 1] == NEWLINE && Printable(line[..|line| - 1])
    ensures var parsed := ParseLine(line[..MAX_LINE]);
      Load(line + rest, space, m) == Load(line[MAX_LINE..] + rest, NextSpace(parsed, space), AddLine(parsed, space, m))
  {
    hide ParseLine, Insert, Find, CString;
    var file := line + rest;
    FullRead(line, rest);
    assert file[..MAX_LINE] == line[..MAX_LINE] && file[MAX_LINE..] == line[MAX_LINE..] + rest;
  }

  lemma ParseBlank()
    ensures ParseLine([NEWLINE]) == Entry([], []) && ParseLine([EQUALS, NEWLINE]) == Entry([], [])
  {
    TokensOfDelimiter(NEWLINE, []);
    TokensOfDelimiter(EQUALS, [NEWLINE]);
    assert [NEWLINE] + [] == [NEWLINE] && [EQUALS] + [NEWLINE] == [EQUALS, NEWLINE];
  }

  lemma LoadTail(tail: Text, rest: Text, space: Text, m: Settings)
    requires tail == [NEWLINE] || tail == [EQUALS, NEWLINE]
    ensures Load(tail + rest, space, m) == Load(rest, space, Insert(m, space + [TAB], []))
  {
    hide Load, ParseLine, Insert;
    ParseBlank();
    LoadLine(tail, rest, space, m);
    Regroup([], [], space + [TAB]);
  }

  lemma EntryIsLine(key: Text, value: Text)
    requires Printable(key) && Printable(value)
    ensures var line := EntryLine(key, value); line != [] && line[|line| - 1] == NEWLINE && Printable(line[..|line| - 1])
  {
    var line := EntryLine(key, value);
    assert line[..|line| - 1] == key + [EQUALS] + value;
  }

  lemma LoadRead(name: Text, value: Text, rest: Text, space: Text, m: Settings)
    requires Printable(KeyOf(name)) && Printable(value) && Width(KeyOf(name), value) <= MAX_LINE
    ensures Load(EntryLine(KeyOf(name), value) + rest, space, m) == Load(rest, NextSpace(ParsedEntry(name, value), space), AfterEntry(name, value, space, m))
  {
    hide Load, ParseLine, EntryLine, Insert, KeyOf, Printable;
    var line, parsed := EntryLine(KeyOf(name), value), ParsedEntry(name, value);
    EntryIsLine(KeyOf(name), value);
    if Over(name, value) {
      LoadLong(line, rest, space, m);
      BlankRest(KeyOf(name), value);
      LoadTail(line[MAX_LINE..], rest, NextSpace(parsed, space), AddLine(parsed, space, m));
    } else {
      LoadLine(line, rest, space, m);
    }
  }

  /** All settings can be read from some file, and each with the first read of its entry. */
  predicate AllRead(order: seq<Text>, m: Settings) {
    forall i :: 0 <= i < |order| ==> order[i] in m && Readable(order[i], m[order[i]]) && Width(KeyOf(order[i]), m[order[i]]) <= MAX_LINE
  }

  lemma AllReadTail(order: seq<Text>, m: Settings)
    requires order != [] && AllRead(order, m)
    ensures AllRead(order[1..], m)
  {
  }

  /** The section that the reader is in behind the header in front of an entry, if there is one. */
  function Here(name: Text, space: Text, now: Text): Text {
    if space != SpaceOf(name) then SpaceOf(name) else now
  }

  /** Reading the first of the printed settings, in whatever section the reader is. */
  lemma LoadFirst(order: seq<Text>, m: Settings, space: Text, now: Text, before: Settings)
    requires order != [] && AllRead(order, m)
    ensures var name := order[0];
      var here := Here(name, space, now);
      Load(Print(order, m, space), now, before)
        == Load(Print(order[1..], m, SpaceOf(name)), NextSpace(ParsedEntry(name, m[name]), here), AfterEntry(name, m[name], here, before))
  {
    hide Load, HeaderLine, EntryLine, AfterEntry, ParsedEntry, SpaceOf, KeyOf, Printable;
    var name := order[0];
    var value, rest := m[name], Print(order[1..], m, SpaceOf(name));
    var line := EntryLine(KeyOf(name), value);
    NameParts(name);
    PrintHead(order, m, space, []);
    Regroup([], [], Print(order, m, space));
    Regroup([], [], rest);
    if space != SpaceOf(name) {
      LoadHeader(SpaceOf(name), line + rest, now, before);
    }
    LoadRead(name, value, rest, Here(name, space, now), before);
  }

  lemma LoadNothing(m: Settings, space: Text, now: Text, before: Settings)
    ensures Load(Print([], m, space), now, before) == before
  {
  }

  // Counting what is added.

  /** How many names of the list are in a set. */
  ghost function CountIn(order: seq<Text>, s: set<Text>): nat {
    if order == [] then 0 else (if order[0] in s then 1 else 0) + CountIn(order[1..], s)
  }

  lemma OneMore<T>(a: set<T>, x: T, s: set<T>)
    ensures |(a + {x}) * s| <= |a * s| + if x in s then 1 else 0
    ensures x !in a ==> |(a + {x}) * s| == |a * s| + if x in s then 1 else 0
  {
    if x in s {
      assert (a + {x}) * s == a * s + {x};
    } else {
      assert (a + {x}) * s == a * s;
    }
  }

  lemma FirstMember<T>(order: seq<T>)
    requires order != [] && NoRepeats(order)
    ensures Members(order) == Members(order[1..]) + {order[0]} && order[0] !in Members(order[1..]) && NoRepeats(order[1..])
  {
  }

  lemma {:induction false} CountAll(order: seq<Text>, s: set<Text>)
    requires NoRepeats(order)
    ensures CountIn(order, s) == |Members(order) * s|
    decreases |order|
  {
    hide NoRepeats, Members;
    if order == [] {
      NoMembers<Text>(s);
    } else {
      FirstMember(order);
      CountAll(order[1..], s);
      OneMore(Members(order[1..]), order[0], s);
    }
  }

  lemma NoMembers<T>(s: set<T>)
    ensures |Members([]) * s| == 0
  {
    assert Members<T>([]) == {};
  }

  /** How many of the names are settings. */
  ghost function Among(m: Settings, s: set<Text>): nat {
    |m.Keys * s|
  }

  lemma InsertCounts(m: Settings, name: Text, value: Text, s: set<Text>)
    ensures Among(Insert(m, name, value), s) <= Among(m, s) + if name in s then 1 else 0
  {
    assert Insert(m, name, value).Keys == m.Keys + {name};
    OneMore(m.Keys, name, s);
  }

  ghost predicate NoTabAtEnd(s: set<Text>) {
    forall name :: name in s ==> name == [] || name[|name| - 1] != TAB
  }

  /** The names to count: a setting that is not counted is empty, and no empty one is counted where lines are too long. */
  ghost predicate Counted(name: Text, value: Text, s: set<Text>) {
    && (name !in s ==> KeyOf(name) == [] && value == [])
    && (name !in s || Over(name, value) ==> NoTabAtEnd(s))
  }

  lemma ParsedBlank(name: Text, value: Text)
    requires KeyOf(name) == [] && value == []
    ensures ParsedEntry(name, value) == Entry([], []) && !Over(name, value)
  {
    hide ParseLine;
    assert EntryLine([], []) == [EQUALS, NEWLINE];
    ParseBlank();
  }

  lemma TabEnds(space: Text, s: set<Text>)
    requires NoTabAtEnd(s)
    ensures space + [TAB] !in s
  {
    var name := space + [TAB];
    assert name[|name| - 1] == TAB;
  }

  /** An entry adds at most one of the counted names, and only if its name is counted and its line an entry. */
  lemma EntryCounts(name: Text, value: Text, space: Text, m: Settings, s: set<Text>)
    requires Counted(name, value, s)
    ensures Among(AfterEntry(name, value, space, m), s) <= Among(m, s) + if name in s && ParsedEntry(name, value).Entry? then 1 else 0
    ensures name !in s ==> ParsedEntry(name, value).Entry?
  {
    hide ParsedEntry, Insert, Among, Over, NoTabAtEnd, KeyOf;
    var parsed := ParsedEntry(name, value);
    if name !in s {
      ParsedBlank(name, value);
      Regroup([], [], space + [TAB]);
      TabEnds(space, s);
    }
    if parsed.Entry? {
      InsertCounts(m, space + [TAB] + parsed.key, parsed.value, s);
    }
    if Over(name, value) {
      TabEnds(NextSpace(parsed, space), s);
      InsertCounts(AddLine(parsed, space, m), NextSpace(parsed, space) + [TAB], [], s);
    }
  }

  ghost predicate AllCounted(order: seq<Text>, m: Settings, s: set<Text>) {
    forall i :: 0 <= i < |order| ==> order[i] in m && Counted(order[i], m[order[i]], s)
  }

  lemma AllCountedTail(order: seq<Text>, m: Settings, s: set<Text>)
    requires order != [] && AllCounted(order, m, s)
    ensures AllCounted(order[1..], m, s)
  {
  }

  /** Each of the printed settings adds at most one of the counted names. */
  lemma {:induction false} AddsAtMost(order: seq<Text>, m: Settings, space: Text, now: Text, before: Settings, s: set<Text>)
    requires AllRead(order, m) && AllCounted(order, m, s)
    ensures Among(Load(Print(order, m, space), now, before), s) <= Among(before, s) + CountIn(order, s)
    decreases |order|
  {
    hide Load, Print, SpaceOf, KeyOf, Readable, Counted, ParsedEntry, AfterEntry, Among;
    if order == [] {
      LoadNothing(m, space, now, before);
    } else {
      var name := order[0];
      var here := Here(name, space, now);
      LoadFirst(order, m, space, now, before);
      EntryCounts(name, m[name], here, before, s);
      AllReadTail(order, m);
      AllCountedTail(order, m, s);
      AddsAtMost(order[1..], m, SpaceOf(name), NextSpace(ParsedEntry(name, m[name]), here), AfterEntry(name, m[name], here, before), s);
    }
  }

  // What comes back when all counted names were added.

  /** What a setting is that was read in a section without a tab. */
  predicate Clean(name: Text, value: Text) {
    NoEquals(KeyOf(name)) && NoEquals(value) && (KeyOf(name) == [] ==> value == [])
  }

  lemma SpaceHasNoTab(name: Text)
    ensures TAB !in SpaceOf(name)
  {
  }

  lemma JoinedName(space: Text, key: Text)
    requires TAB !in space
    ensures SpaceOf(space + [TAB] + key) == space && KeyOf(space + [TAB] + key) == key
  {
    FindIn(space, TAB, key);
  }

  lemma ParsedIsClean(line: Text)
    ensures var parsed := ParseLine(line);
      parsed.Entry? ==> NoEquals(parsed.key) && NoEquals(parsed.value) && (parsed.key == [] ==> parsed.value == [])
  {
  }

  lemma InsertClean(m: Settings, space: Text, key: Text, value: Text)
    requires TAB !in space && NoEquals(key) && NoEquals(value) && (key == [] ==> value == [])
    ensures var n := Insert(m, space + [TAB] + key, value);
      && (forall name :: name in m ==> name in n && n[name] == m[name])
      && (forall name :: name in n ==> (name in m && n[name] == m[name]) || Clean(name, n[name]))
      && space + [TAB] + key in n
  {
    hide SpaceOf, KeyOf, NoEquals;
    JoinedName(space, key);
  }

  lemma AfterIsClean(name: Text, value: Text, m: Settings)
    requires ParsedEntry(name, value).Entry?
    ensures var n := AfterEntry(name, value, SpaceOf(name), m);
      && (forall x :: x in m ==> x in n && n[x] == m[x])
      && (forall x :: x in n ==> (x in m && n[x] == m[x]) || Clean(x, n[x]))
      && (Over(name, value) ==> SpaceOf(name) + [TAB] in n)
  {
    hide ParseLine, SpaceOf, KeyOf, Over, Insert, Clean, FirstRead;
    var space, parsed := SpaceOf(name), ParsedEntry(name, value);
    SpaceHasNoTab(name);
    ParsedIsClean(FirstRead(KeyOf(name), value));
    InsertClean(m, space, parsed.key, parsed.value);
    InsertClean(AddLine(parsed, space, m), space, [], []);
    Regroup([], [], space + [TAB]);
  }

  /** If as many counted names were added as there are, every printed line was read as an entry in its own section. */
  lemma {:induction false} AllAdded(order: seq<Text>, m: Settings, space: Text, before: Settings, s: set<Text>)
    requires AllRead(order, m) && AllCounted(order, m, s)
    requires Among(Load(Print(order, m, space), space, before), s) == Among(before, s) + CountIn(order, s)
    ensures forall i :: 0 <= i < |order| ==> ParsedEntry(order[i], m[order[i]]).Entry?
    ensures var r := Load(Print(order, m, space), space, before);
      && (forall x :: x in before ==> x in r && r[x] == before[x])
      && (forall x :: x in r ==> (x in before && r[x] == before[x]) || Clean(x, r[x]))
      && (forall i :: 0 <= i < |order| && Over(order[i], m[order[i]]) ==> SpaceOf(order[i]) + [TAB] in r)
    decreases |order|
  {
    hide Load, Print, SpaceOf, KeyOf, Readable, Counted, ParsedEntry, AfterEntry, Among, Clean, Over;
    if order == [] {
      LoadNothing(m, space, space, before);
    } else {
      var name, rest := order[0], order[1..];
      var here := Here(name, space, space);
      var next, after := NextSpace(ParsedEntry(name, m[name]), here), AfterEntry(name, m[name], here, before);
      LoadFirst(order, m, space, space, before);
      EntryCounts(name, m[name], here, before, s);
      AllReadTail(order, m);
      AllCountedTail(order, m, s);
      AddsAtMost(rest, m, here, next, after, s);
      AfterIsClean(name, m[name], before);
      AllAdded(rest, m, here, after, s);
      assert forall i :: 0 < i < |order| ==> order[i] == rest[i - 1];
    }
  }

  lemma EntryStarts(name: Text, value: Text)
    requires ParsedEntry(name, value).Entry? && KeyOf(name) != []
    ensures var read := FirstRead(KeyOf(name), value); KeyOf(name)[0] != HASH && !(KeyOf(name)[0] == OPEN && read[|read| - 2] == CLOSE)
  {
    hide KeyOf, Tokens;
    assert FirstRead(KeyOf(name), value)[0] == KeyOf(name)[0];
  }

  lemma {:induction false} LoadKeeps(file: Text, space: Text, m: Settings, name: Text)
    requires name in m
    ensures name in Load(file, space, m) && Load(file, space, m)[name] == m[name]
    decreases |file|
  {
    hide ParseLine, CString, LineLength;
    if file != [] {
      var n := LineLength(file);
      var parsed := ParseLine(CString(file[..n]));
      LoadKeeps(file[n..], NextSpace(parsed, space), AddLine(parsed, space, m), name);
    }
  }

  lemma TabInKey(space: Text, key: Text)
    requires TAB in space
    ensures TAB in KeyOf(space + [TAB] + key)
  {
    hide Find;
    var name, p := space + [TAB] + key, Find(space, TAB);
    Regroup(space, [TAB], key);
    FindEarly(space, TAB, [TAB] + key);
    assert KeyOf(name)[|space| - p - 1] == name[|space|];
  }

  lemma PlainKey(space: Text, key: Text)
    requires TAB !in KeyOf(space + [TAB] + key)
    ensures KeyOf(space + [TAB] + key) == key
  {
    hide KeyOf;
    if TAB in space {
      TabInKey(space, key);
    } else {
      JoinedName(space, key);
    }
  }

  lemma AddedPlain(line: Text, space: Text, m: Settings, name: Text)
    requires IsLine(line) && name !in m && name in AddLine(ParseLine(line), space, m) && TAB !in KeyOf(name)
    ensures var value := AddLine(ParseLine(line), space, m)[name]; Clean(name, value) && Width(KeyOf(name), value) <= MAX_LINE
  {
    hide ParseLine, KeyOf, Printable, SpaceOk;
    ParsedParts(line);
    ParsedIsClean(line);
    PlainKey(space, ParseLine(line).key);
  }

  /** A name with a single tab was read in a section without one, and with the key it has. */
  lemma {:induction false} LoadAddsPlain(file: Text, space: Text, m: Settings, name: Text)
    requires name !in m && name in Load(file, space, m) && TAB !in KeyOf(name)
    ensures var value := Load(file, space, m)[name]; Clean(name, value) && Width(KeyOf(name), value) <= MAX_LINE
    decreases |file|
  {
    hide ParseLine, CString, LineLength, KeyOf, Clean, Width;
    var n := LineLength(file);
    var line := CString(file[..n]);
    var parsed := ParseLine(line);
    var next, added := NextSpace(parsed, space), AddLine(parsed, space, m);
    if name in added {
      ReadIsLine(file);
      AddedPlain(line, space, m, name);
      LoadKeeps(file[n..], next, added, name);
    } else {
      LoadAddsPlain(file[n..], next, added, name);
    }
  }

  predicate AllFit(m: Settings) {
    forall name :: name in m ==> !Over(name, m[name])
  }

  /** Every name is a section, a tab and a key. */
  predicate OneTab(m: Settings) {
    forall name :: name in m ==> TAB !in KeyOf(name)
  }

  predicate AllIn(m: Settings) {
    forall name :: name in m ==> SettingIn(name, m[name], m)
  }

  /** All names, or, if an entry is too long for its line, those with a key. */
  ghost function ToCount(m: Settings): set<Text> {
    if AllFit(m) then m.Keys else set name | name in m && KeyOf(name) != []
  }

  lemma KeyAtEnd(name: Text)
    requires KeyOf(name) != []
    ensures KeyOf(name)[|KeyOf(name)| - 1] == name[|name| - 1]
  {
  }

  lemma NoKeyedTabAtEnd(m: Settings)
    requires OneTab(m)
    ensures NoTabAtEnd(set name | name in m && KeyOf(name) != [])
  {
    hide KeyOf;
    forall name | name in m && KeyOf(name) != []
      ensures name == [] || name[|name| - 1] != TAB
    {
      KeyAtEnd(name);
    }
  }

  lemma FitsWidth(name: Text, value: Text)
    ensures !Over(name, value) ==> Width(KeyOf(name), value) <= MAX_LINE
  {
    hide KeyOf;
  }

  /** What settings that came back are, before anything is counted. */
  lemma CameBack(file: Text, m: Settings, name: Text)
    requires (AllFit(m) || OneTab(m)) && Load(file, [], map[]) == m && name in m
    ensures Readable(name, m[name]) && Width(KeyOf(name), m[name]) <= MAX_LINE && Counted(name, m[name], ToCount(m))
  {
    hide Load, Readable, KeyOf, Over, Width, NoTabAtEnd;
    LoadAdds(file, [], map[], name);
    if AllFit(m) {
      FitsWidth(name, m[name]);
    } else {
      LoadAddsPlain(file, [], map[], name);
      NoKeyedTabAtEnd(m);
    }
  }

  lemma AllCountedBack(order: seq<Text>, m: Settings)
    requires Lists(order, m) && (AllFit(m) || OneTab(m)) && Load(Print(order, m, []), [], map[]) == m
    ensures AllRead(order, m) && AllCounted(order, m, ToCount(m))
    ensures Among(m, ToCount(m)) == Among(map[], ToCount(m)) + CountIn(order, ToCount(m))
  {
    hide Load, Print, Readable, KeyOf, Over, Width, AllFit, OneTab, Counted, ToCount;
    forall i | 0 <= i < |order|
      ensures Readable(order[i], m[order[i]]) && Width(KeyOf(order[i]), m[order[i]]) <= MAX_LINE && Counted(order[i], m[order[i]], ToCount(m))
    {
      CameBack(Print(order, m, []), m, order[i]);
    }
    CountAll(order, ToCount(m));
    assert Members(order) == m.Keys;
  }

  lemma CleanIsOk(name: Text, value: Text, m: Settings)
    requires Readable(name, value) && Width(KeyOf(name), value) <= MAX_LINE && Clean(name, value) && ParsedEntry(name, value).Entry?
    requires Over(name, value) ==> SpaceOf(name) + [TAB] in m
    ensures SettingIn(name, value, m)
  {
    hide Readable, KeyOf, SpaceOf, ParsedEntry;
    if KeyOf(name) != [] {
      EntryStarts(name, value);
    }
  }

  lemma ComeBackOnlyIf(order: seq<Text>, m: Settings)
    requires Lists(order, m) && (AllFit(m) || OneTab(m)) && Load(Print(order, m, []), [], map[]) == m
    ensures AllIn(m)
  {
    hide Load, Print, Readable, KeyOf, SpaceOf, Over, Width, AllFit, OneTab, ToCount, ParsedEntry, Clean, SettingIn, NoRepeats;
    AllCountedBack(order, m);
    AllAdded(order, m, [], map[], ToCount(m));
    forall name | name in m
      ensures SettingIn(name, m[name], m)
    {
      var j :| 0 <= j < |order| && order[j] == name;
      CleanIsOk(name, m[name], m);
    }
  }

  lemma TokensOfRead(key: Text, value: Text)
    requires Printable(key) && Printable(value) && NoEquals(key) && NoEquals(value) && key != [] && Width(key, value) <= MAX_LINE
    ensures Tokens(FirstRead(key, value)) == if value == [] then [key] else [key, value]
  {
    hide Tokens;
    var read := FirstRead(key, value);
    TokensOfNothing();
    if |EntryLine(key, value)| <= MAX_LINE {
      TokensOfEntry(key, value);
    } else if value != [] {
      assert read == key + ([EQUALS] + value);
      TokensOfClean(key, [EQUALS] + value);
      TokensOfDelimiter(EQUALS, value);
      TokensOfClean(value, []);
      Regroup([], [], value);
    } else if |key| == MAX_LINE {
      assert read == key + [];
      TokensOfClean(key, []);
    } else {
      assert read == key + [EQUALS];
      TokensOfClean(key, [EQUALS]);
      TokensOfDelimiter(EQUALS, []);
      Regroup([], [], [EQUALS]);
    }
  }

  lemma TokensOfNothing()
    ensures Tokens([]) == []
  {
  }

  /** The first read of an entry that meets its condition gives key and value back. */
  lemma ReadBack(name: Text, value: Text)
    requires Printable(KeyOf(name)) && Printable(value) && EntryOk(KeyOf(name), value)
    ensures ParsedEntry(name, value) == Entry(KeyOf(name), value) && Width(KeyOf(name), value) <= MAX_LINE
  {
    hide Tokens, KeyOf, Printable;
    if KeyOf(name) == [] {
      ParsedBlank(name, value);
    } else {
      TokensOfRead(KeyOf(name), value);
      assert FirstRead(KeyOf(name), value)[0] == KeyOf(name)[0];
    }
  }

  predicate Within(a: Settings, b: Settings) {
    forall name :: name in a ==> name in b && a[name] == b[name]
  }

  lemma InsertWithin(a: Settings, b: Settings, name: Text, value: Text)
    requires Within(a, b) && name in b && b[name] == value
    ensures Within(Insert(a, name, value), b) && Within(a, Insert(a, name, value)) && name in Insert(a, name, value)
  {
  }

  /** An empty setting that is there is empty. */
  lemma BlankIsEmpty(m: Settings, name: Text)
    requires AllIn(m) && TAB !in SpaceOf(name) && SpaceOf(name) + [TAB] in m
    ensures m[SpaceOf(name) + [TAB]] == []
  {
    hide SpaceOf, KeyOf, Readable;
    var blank := SpaceOf(name) + [TAB];
    JoinedName(SpaceOf(name), []);
    Regroup([], [], blank);
    assert SettingIn(blank, m[blank], m);
  }

  lemma AddsItself(m: Settings, name: Text, before: Settings)
    requires AllIn(m) && name in m && Within(before, m)
    ensures var after := AfterEntry(name, m[name], SpaceOf(name), before);
      Within(after, m) && Within(before, after) && name in after
    ensures ParsedEntry(name, m[name]).Entry? && Readable(name, m[name]) && Width(KeyOf(name), m[name]) <= MAX_LINE
  {
    hide ParsedEntry, EntryOk, HeaderLine, KeyOf, SpaceOf, Printable, Width, Insert, Within;
    assert SettingIn(name, m[name], m);
    NameParts(name);
    ReadBack(name, m[name]);
    SpaceHasNoTab(name);
    InsertWithin(before, m, name, m[name]);
    if Over(name, m[name]) {
      var added := Insert(before, name, m[name]);
      BlankIsEmpty(m, name);
      InsertWithin(added, m, SpaceOf(name) + [TAB], []);
      WithinTrans(before, added, Insert(added, SpaceOf(name) + [TAB], []));
    }
  }

  lemma WithinTrans(a: Settings, b: Settings, c: Settings)
    ensures Within(a, b) && Within(b, c) ==> Within(a, c)
  {
  }

  lemma {:induction false} AllComeBack(order: seq<Text>, m: Settings, space: Text, before: Settings)
    requires AllIn(m) && Within(before, m) && forall i :: 0 <= i < |order| ==> order[i] in m
    ensures var r := Load(Print(order, m, space), space, before);
      Within(r, m) && Within(before, r) && forall i :: 0 <= i < |order| ==> order[i] in r
    decreases |order|
  {
    hide Load, Print, AllIn, SpaceOf, KeyOf, Readable, Width, ParsedEntry, AfterEntry;
    if order == [] {
      LoadNothing(m, space, space, before);
    } else {
      var name := order[0];
      forall i | 0 <= i < |order|
        ensures Readable(order[i], m[order[i]]) && Width(KeyOf(order[i]), m[order[i]]) <= MAX_LINE
      {
        AddsItself(m, order[i], before);
      }
      LoadFirst(order, m, space, space, before);
      AddsItself(m, name, before);
      AllComeBack(order[1..], m, SpaceOf(name), AfterEntry(name, m[name], SpaceOf(name), before));
      assert forall i :: 0 < i < |order| ==> order[i] == order[1..][i - 1];
    }
  }

  /**
   * A set of settings comes back from its file, in whatever order it was printed, if each of them
   * meets its condition, and only then, unless an entry is too long for its line and a key holds a tab.
   */
  lemma SetRoundTrip(order: seq<Text>, m: Settings)
    requires Lists(order, m)
    ensures AllIn(m) ==> Load(Print(order, m, []), [], map[]) == m
    ensures AllFit(m) || OneTab(m) ==> (Load(Print(order, m, []), [], map[]) == m <==> AllIn(m))
  {
    hide Load, Print, AllFit, OneTab, AllIn;
    if AllIn(m) {
      AllComeBack(order, m, [], map[]);
    }
    if (AllFit(m) || OneTab(m)) && Load(Print(order, m, []), [], map[]) == m {
      ComeBackOnlyIf(order, m);
    }
  }

  lemma PrintEnds(order: seq<Text>, m: Settings, space: Text)
    requires order != [] && forall i :: 0 <= i < |order| ==> order[i] in m && Printable(order[i]) && Printable(m[order[i]])
    ensures var text := Print(order, m, space); text != [] && text[|text| - 1] == NEWLINE
    decreases |order|
  {
    hide SpaceOf, KeyOf, Printable, HeaderLine;
    PrintHead(order, m, space, []);
    Regroup([], [], Print(order, m, space));
    if order[1..] == [] {
      PrintNothing(m, SpaceOf(order[0]));
    } else {
      PrintEnds(order[1..], m, SpaceOf(order[0]));
    }
  }

  /** Zero bytes behind the file change nothing, unless the settings are lost anyway. */
  lemma ZerosBehind(order: seq<Text>, m: Settings, k: nat)
    requires k < Tea.BLOCK && forall i :: 0 <= i < |order| ==> order[i] in m && Printable(order[i]) && Printable(m[order[i]])
    ensures Load(Print(order, m, []) + Zeros(k), [], map[]) == Load(Print(order, m, []), [], map[])
  {
    hide Load, Print, Printable;
    if order == [] {
      PrintNothing(m, []);
      Regroup([], [], Zeros(k));
      LoadPadding(k, [], map[]);
      LoadNothing(m, [], [], map[]);
    } else {
      PrintEnds(order, m, []);
      ZerosIgnored(Print(order, m, []), k, [], map[]);
    }
  }

  lemma LostOnDisk(text: Text, m: Settings, name: Text)
    requires name in m && !Readable(name, m[name])
    ensures Load(text, [], map[]) != m && !AllIn(m)
  {
    hide Load, EntryOk, HeaderLine;
    LoadAdds(text, [], map[], name);
  }

  /** The same through the file on disk, with any cipher. */
  lemma SetRoundTripOnDisk(order: seq<Text>, m: Settings, cipher: Text)
    requires Lists(order, m)
    ensures var file := ToDisk(Print(order, m, []), cipher);
      && (cipher != [] ==> |file| % 2 == 0)
      && (AllIn(m) ==> Load(FromDisk(file, cipher), [], map[]) == m)
      && (AllFit(m) || OneTab(m) ==> (Load(FromDisk(file, cipher), [], map[]) == m <==> AllIn(m)))
  {
    hide Load, Print, ToDisk, FromDisk, AllFit, OneTab, AllIn, Printable, SpaceOf, NoRepeats;
    var text := Print(order, m, []);
    var k := DiskRoundTrip(text, cipher);
    if name :| name in m && !Readable(name, m[name]) {
      LostOnDisk(text + Zeros(k), m, name);
    } else {
      SetRoundTrip(order, m);
      ZerosBehind(order, m, k);
    }
  }
}
