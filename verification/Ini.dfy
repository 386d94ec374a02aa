/** Trading configurations as INI text: objectToIni writes it, parseIni reads it back. */
module Ini {
  import opened Common
  import opened Texts

  /** What is printed: a text under a key, or a section. Entries are in insertion order. */
  datatype Value = Text(text: string) | Section(entries: seq<Entry>)

  datatype Entry = Entry(key: string, value: Value)

  // ---- writing -------------------------------------------------------------------

  function ToIni(config: seq<Entry>): string
    decreases config
  {
    if config == [] then "" else EntryToIni(config[0]) + ToIni(config[1..])
  }

  function EntryToIni(entry: Entry): string
    decreases entry
  {
    match entry.value
    case Text(text) => Line(entry.key, text)
    case Section(entries) => "[" + entry.key + "]\n" + ToIni(entries) + "\n"
  }

  lemma OneMoreEntry(config: seq<Entry>, n: nat)
    requires n < |config|
    ensures ToIni(config[n..]) == EntryToIni(config[n]) + ToIni(config[n + 1..])
  {
    assert config[n..][0] == config[n] && config[n..][1..] == config[n + 1..];
  }

  lemma EntryShape(entry: Entry)
    ensures EntryToIni(entry) ==
            match entry.value
            case Text(text) => Line(entry.key, text)
            case Section(entries) => "[" + entry.key + "]\n" + ToIni(entries) + "\n"
  {
  }

  lemma NoEntries(config: seq<Entry>)
    ensures ToIni(config[|config|..]) == ""
  {
  }

  method ObjectToIni(config: seq<Entry>) returns (ini: string)
    ensures ini == ToIni(config)
    decreases config
  {
    hide ToIni, EntryToIni, Line;
    ini := "";
    assert config[0..] == config;
    for n := 0 to |config|
      invariant ini + ToIni(config[n..]) == ToIni(config)
    {
      var entry := config[n];
      OneMoreEntry(config, n);
      EntryShape(entry);
      assert ini + (EntryToIni(entry) + ToIni(config[n + 1..])) == (ini + EntryToIni(entry)) + ToIni(config[n + 1..]);
      match entry.value {
        case Text(text) =>
          ini := ini + Line(entry.key, text);
        case Section(entries) =>
          var inner := ObjectToIni(entries);
          ini := ini + ("[" + entry.key + "]\n" + inner + "\n");
      }
    }
    NoEntries(config);
    assert ini + "" == ini;
  }

  function Line(key: string, text: string): string {
    key + "=" + text + "\n"
  }

  // ---- reading -------------------------------------------------------------------

  /** The characters that trim removes. */
  predicate IsSpace(c: char) {
    || c == '\t' || c == '\n' || c == '\r' || c == ' '
    || c == '\U{0B}' || c == '\U{0C}' || c == '\U{A0}' || c == '\U{1680}'
    || '\U{2000}' <= c <= '\U{200A}'
    || c == '\U{2028}' || c == '\U{2029}' || c == '\U{202F}' || c == '\U{205F}' || c == '\U{3000}' || c == '\U{FEFF}'
  }

  function TrimStart(s: string): string {
    if s != "" && IsSpace(s[0]) then TrimStart(s[1..]) else s
  }

  function TrimEnd(s: string): string {
    if s != "" && IsSpace(s[|s| - 1]) then TrimEnd(s[..|s| - 1]) else s
  }

  function Trim(s: string): string {
    TrimEnd(TrimStart(s))
  }

  /** A line break is a newline with or without a carriage return before it. */
  function WithoutReturn(line: string): string {
    if line != "" && line[|line| - 1] == '\r' then line[..|line| - 1] else line
  }

  function Lines(content: string): seq<string> {
    var pieces := Split(content, '\n');
    seq(|pieces|, i requires 0 <= i < |pieces| => if i < |pieces| - 1 then WithoutReturn(pieces[i]) else pieces[i])
  }

  function WithoutMark(content: string): string {
    if content != "" && content[0] == '\U{FEFF}' then content[1..] else content
  }

  /** Position of the first occurrence; the length of the text when there is none. */
  function IndexOf(s: string, c: char): (i: nat)
    ensures i <= |s|
  {
    if s == "" || s[0] == c then 0 else 1 + IndexOf(s[1..], c)
  }

  predicate Ignored(line: string) {
    || line == "" || line[0] == '#' || line[0] == ';'
    || (line[0] == '[' && line[|line| - 1] == ']')
    || IndexOf(line, '=') == |line|
  }

  function ParseLine(rawLine: string, result: map<string, string>): map<string, string> {
    var line := Trim(rawLine);
    if Ignored(line) then result
    else
      var equal := IndexOf(line, '=');
      var key, value := Trim(line[..equal]), Trim(line[equal + 1..]);
      if key == "" then result else Assigned(result, key, value)
  }

  /** Assigning a text to a property of a plain object: under `__proto__` it is ignored. */
  function Assigned(result: map<string, string>, key: string, value: string): map<string, string> {
    if key == "__proto__" then result else result[key := value]
  }

  function ParseLines(lines: seq<string>, result: map<string, string>): map<string, string>
    decreases lines
  {
    if lines == [] then result else ParseLines(lines[1..], ParseLine(lines[0], result))
  }

  lemma OneMoreLine(lines: seq<string>, n: nat, result: map<string, string>)
    requires n < |lines|
    ensures ParseLines(lines[n..], result) == ParseLines(lines[n + 1..], ParseLine(lines[n], result))
  {
    assert lines[n..][1..] == lines[n + 1..];
  }

  lemma NoMoreLines(lines: seq<string>, result: map<string, string>)
    ensures ParseLines(lines[|lines|..], result) == result
  {
  }

  method ParseIni(content: string) returns (result: map<string, string>)
    ensures result == ParseLines(Lines(WithoutMark(content)), map[])
  {
    hide ParseLines, Trim, Lines, WithoutMark, Assigned;
    result := map[];
    var lines := Lines(WithoutMark(content));
    assert lines[0..] == lines;
    for n := 0 to |lines|
      invariant ParseLines(lines[n..], result) == ParseLines(lines, map[])
    {
      OneMoreLine(lines, n, result);
      var line := Trim(lines[n]);
      if line == "" || line[0] == '#' || line[0] == ';' {
        continue;
      }
      if line[0] == '[' && line[|line| - 1] == ']' {
        continue;
      }
      var equal := IndexOf(line, '=');
      if equal == |line| {
        continue;
      }
      var key, value := Trim(line[..equal]), Trim(line[equal + 1..]);
      if key != "" {
        result := Assigned(result, key, value);
      }
    }
    NoMoreLines(lines, result);
  }

  // ---- what survives ----------------------------------------------------------------

  predicate Trimmed(s: string) {
    s == "" || (!IsSpace(s[0]) && !IsSpace(s[|s| - 1]))
  }

  /** Keys and values that reading can produce. */
  predicate Clean(key: string, text: string) {
    && key != "" && key != "__proto__" && Trimmed(key) && '=' !in key && '\n' !in key && key[0] != '#' && key[0] != ';'
    && Trimmed(text) && '\n' !in text
  }

  /** The printed line does not look like a section header. */
  predicate NotHeader(key: string, text: string) {
    key == "" || key[0] != '[' || text == "" || text[|text| - 1] != ']'
  }

  predicate Survives(key: string, text: string) {
    Clean(key, text) && NotHeader(key, text)
  }

  function Printed(section: seq<(string, string)>): string {
    if section == [] then "" else Line(section[0].0, section[0].1) + Printed(section[1..])
  }

  /** The map a section stands for, a later entry winning over an earlier one. */
  function MapOf(section: seq<(string, string)>, before: map<string, string>): map<string, string>
    decreases section
  {
    if section == [] then before else MapOf(section[1..], before[section[0].0 := section[0].1])
  }

  lemma {:induction false} TrimStartOfTrimmed(s: string)
    requires Trimmed(s)
    ensures Trim(s) == s
  {
  }

  lemma {:induction false} IndexOfFirst(a: string, c: char, b: string)
    requires c !in a
    ensures IndexOf(a + ([c] + b), c) == |a|
  {
    var s := a + ([c] + b);
    if a != "" {
      assert s[1..] == a[1..] + ([c] + b);
      IndexOfFirst(a[1..], c, b);
    }
  }

  /** A clean entry's line is read back, unless it looks like a header. */
  lemma CleanLine(key: string, text: string, result: map<string, string>)
    requires Clean(key, text)
    ensures ParseLine(key + (['='] + text), result) == if NotHeader(key, text) then result[key := text] else result
  {
    var line := key + (['='] + text);
    assert line[0] == key[0];
    assert line[|line| - 1] == if text == "" then '=' else text[|text| - 1];
    TrimStartOfTrimmed(line);
    TrimStartOfTrimmed(key);
    TrimStartOfTrimmed(text);
    IndexOfFirst(key, '=', text);
    assert line[..|key|] == key && line[|key| + 1..] == text;
  }

  lemma LinesCons(line: string, rest: string)
    requires '\n' !in line
    ensures Lines(line + (['\n'] + rest)) == [WithoutReturn(line)] + Lines(rest)
  {
    SplitAt(line, '\n', rest);
  }

  lemma LinesOfEmpty()
    ensures Lines("") == [""]
  {
  }

  lemma ParseNothing(result: map<string, string>)
    ensures ParseLines(Lines(""), result) == result
  {
    LinesOfEmpty();
    assert [""][1..] == [];
  }

  /** The entries of a section that do not look like headers. */
  function Kept(section: seq<(string, string)>, before: map<string, string>): map<string, string>
    decreases section
  {
    if section == [] then before
    else if NotHeader(section[0].0, section[0].1) then Kept(section[1..], before[section[0].0 := section[0].1])
    else Kept(section[1..], before)
  }

  ghost predicate AllClean(section: seq<(string, string)>) {
    forall i :: 0 <= i < |section| ==> Clean(section[i].0, section[i].1)
  }

  ghost predicate AllSurvive(section: seq<(string, string)>) {
    forall i :: 0 <= i < |section| ==> Survives(section[i].0, section[i].1)
  }

  lemma CleanLineFirst(key: string, text: string, rest: string, result: map<string, string>)
    requires Clean(key, text)
    ensures ParseLines(Lines(Line(key, text) + rest), result) ==
            ParseLines(Lines(rest), if NotHeader(key, text) then result[key := text] else result)
  {
    var line := key + (['='] + text);
    assert Line(key, text) + rest == line + (['\n'] + rest);
    assert line[|line| - 1] == if text == "" then '=' else text[|text| - 1];
    LinesCons(line, rest);
    CleanLine(key, text, result);
    assert ([WithoutReturn(line)] + Lines(rest))[1..] == Lines(rest);
  }

  /** A printed section of clean entries reads as its entries, whatever follows. */
  lemma {:induction false} CleanSection(section: seq<(string, string)>, rest: string, result: map<string, string>)
    requires AllClean(section)
    ensures ParseLines(Lines(Printed(section) + rest), result) == ParseLines(Lines(rest), Kept(section, result))
    decreases section
  {
    if section == [] {
      assert Printed(section) + rest == rest;
    } else {
      var (key, text) := section[0];
      var after := if NotHeader(key, text) then result[key := text] else result;
      assert Printed(section) + rest == Line(key, text) + (Printed(section[1..]) + rest);
      CleanLineFirst(key, text, Printed(section[1..]) + rest, result);
      CleanSection(section[1..], rest, after);
    }
  }

  lemma {:induction false} KeptAll(section: seq<(string, string)>, before: map<string, string>)
    requires AllSurvive(section)
    ensures Kept(section, before) == MapOf(section, before)
    decreases section
  {
    if section != [] { KeptAll(section[1..], before[section[0].0 := section[0].1]); }
  }

  // ---- reading gives clean entries only --------------------------------------------

  lemma {:induction false} TrimStartShape(s: string)
    ensures TrimStart(s) == "" || !IsSpace(TrimStart(s)[0])
    ensures forall c :: c in TrimStart(s) ==> c in s
  {
    if s != "" { TrimStartShape(s[1..]); }
  }

  lemma {:induction false} TrimEndShape(s: string)
    ensures TrimEnd(s) <= s
    ensures TrimEnd(s) == "" || !IsSpace(TrimEnd(s)[|TrimEnd(s)| - 1])
  {
    if s != "" { TrimEndShape(s[..|s| - 1]); }
  }

  /** Trimming leaves a trimmed text made of characters of the original. */
  lemma TrimShape(s: string)
    ensures Trimmed(Trim(s)) && forall c :: c in Trim(s) ==> c in s
    ensures s != "" && !IsSpace(s[0]) && Trim(s) != "" ==> Trim(s)[0] == s[0]
  {
    TrimStartShape(s);
    TrimEndShape(TrimStart(s));
  }

  lemma {:induction false} BeforeFirst(s: string, c: char)
    ensures c !in s[..IndexOf(s, c)]
  {
    if s != "" && s[0] != c {
      BeforeFirst(s[1..], c);
      assert s[..IndexOf(s, c)] == [s[0]] + s[1..][..IndexOf(s[1..], c)];
    }
  }

  ghost predicate CleanMap(m: map<string, string>) {
    forall key :: key in m ==> Clean(key, m[key])
  }

  lemma ParseLineClean(rawLine: string, result: map<string, string>)
    requires CleanMap(result) && '\n' !in rawLine
    ensures CleanMap(ParseLine(rawLine, result))
  {
    var line := Trim(rawLine);
    TrimShape(rawLine);
    if !Ignored(line) {
      var equal := IndexOf(line, '=');
      var left, right := line[..equal], line[equal + 1..];
      BeforeFirst(line, '=');
      TrimShape(left);
      TrimShape(right);
      if Trim(left) != "" {
        assert left != "" by { assert TrimStart("") == ""; }
        assert left[0] == line[0];
      }
    }
  }

  lemma {:induction false} ParseLinesClean(lines: seq<string>, result: map<string, string>)
    requires CleanMap(result) && forall i :: 0 <= i < |lines| ==> '\n' !in lines[i]
    ensures CleanMap(ParseLines(lines, result))
    decreases lines
  {
    if lines != [] {
      ParseLineClean(lines[0], result);
      ParseLinesClean(lines[1..], ParseLine(lines[0], result));
    }
  }

  lemma LinesClean(content: string)
    ensures forall i :: 0 <= i < |Lines(content)| ==> '\n' !in Lines(content)[i]
  {
    forall i | 0 <= i < |Lines(content)|
      ensures '\n' !in Lines(content)[i]
    {
      SplitPiecesClean(content, '\n', i);
    }
  }

  // ---- the round trip -----------------------------------------------------------------

  function Read(content: string): map<string, string> {
    ParseLines(Lines(WithoutMark(content)), map[])
  }

  ghost predicate DistinctNames(section: seq<(string, string)>) {
    forall i, j :: 0 <= i < j < |section| ==> section[i].0 != section[j].0
  }

  lemma {:induction false} MapOfEntries(section: seq<(string, string)>, before: map<string, string>, i: nat)
    requires DistinctNames(section) && i < |section|
    ensures section[i].0 in MapOf(section, before) && MapOf(section, before)[section[i].0] == section[i].1
    decreases section
  {
    var after := before[section[0].0 := section[0].1];
    assert forall j :: 0 <= j < |section| - 1 ==> section[1..][j] == section[j + 1];
    if i > 0 {
      MapOfEntries(section[1..], after, i - 1);
    } else {
      MapOfOthers(section[1..], after, section[0].0);
    }
  }

  lemma {:induction false} MapOfOthers(section: seq<(string, string)>, before: map<string, string>, name: string)
    requires forall i :: 0 <= i < |section| ==> section[i].0 != name
    ensures name in MapOf(section, before) <==> name in before
    ensures name in before ==> MapOf(section, before)[name] == before[name]
    decreases section
  {
    if section != [] { MapOfOthers(section[1..], before[section[0].0 := section[0].1], name); }
  }

  lemma {:induction false} KeptOthers(section: seq<(string, string)>, before: map<string, string>, name: string)
    requires forall i :: 0 <= i < |section| && section[i].0 == name ==> !NotHeader(name, section[i].1)
    ensures name in Kept(section, before) <==> name in before
    decreases section
  {
    if section != [] {
      var after := if NotHeader(section[0].0, section[0].1) then before[section[0].0 := section[0].1] else before;
      KeptOthers(section[1..], after, name);
    }
  }

  lemma NoMark(section: seq<(string, string)>)
    requires AllClean(section)
    ensures WithoutMark(Printed(section)) == Printed(section)
  {
    if section != [] {
      assert Printed(section)[0] == section[0].0[0];
      assert Trimmed(section[0].0) && Clean(section[0].0, section[0].1);
    }
  }

  lemma ReadOfClean(section: seq<(string, string)>)
    requires AllClean(section)
    ensures Read(Printed(section)) == Kept(section, map[])
  {
    NoMark(section);
    CleanSection(section, "", map[]);
    assert Printed(section) + "" == Printed(section);
    ParseNothing(Kept(section, map[]));
  }

  function AsTexts(section: seq<(string, string)>): seq<Entry> {
    seq(|section|, i requires 0 <= i < |section| => Entry(section[i].0, Text(section[i].1)))
  }

  lemma {:induction false} PrintedIsIni(section: seq<(string, string)>)
    ensures ToIni(AsTexts(section)) == Printed(section)
  {
    if section != [] {
      PrintedIsIni(section[1..]);
      assert AsTexts(section)[1..] == AsTexts(section[1..]);
    }
  }

  /** A section of distinct keys comes back as its map exactly when every entry survives. */
  lemma RoundTripExactly(section: seq<(string, string)>)
    requires DistinctNames(section)
    ensures Read(ToIni(AsTexts(section))) == MapOf(section, map[]) <==> AllSurvive(section)
  {
    PrintedIsIni(section);
    if AllSurvive(section) {
      ReadOfClean(section);
      KeptAll(section, map[]);
    }
    if Read(Printed(section)) == MapOf(section, map[]) {
      LinesClean(WithoutMark(Printed(section)));
      ParseLinesClean(Lines(WithoutMark(Printed(section))), map[]);
      forall i | 0 <= i < |section|
        ensures Clean(section[i].0, section[i].1)
      {
        MapOfEntries(section, map[], i);
      }
      ReadOfClean(section);
      forall i | 0 <= i < |section|
        ensures NotHeader(section[i].0, section[i].1)
      {
        MapOfEntries(section, map[], i);
        if !NotHeader(section[i].0, section[i].1) {
          KeptOthers(section, map[], section[i].0);
        }
      }
    }
  }

  // ---- several sections ----------------------------------------------------------------

  function AsSections(sections: seq<(string, seq<(string, string)>)>): seq<Entry> {
    seq(|sections|, i requires 0 <= i < |sections| => Entry(sections[i].0, Section(AsTexts(sections[i].1))))
  }

  /** The union of the sections, a later one winning. */
  function Union(sections: seq<(string, seq<(string, string)>)>, before: map<string, string>): map<string, string>
    decreases sections
  {
    if sections == [] then before else Union(sections[1..], MapOf(sections[0].1, before))
  }

  lemma {:induction false} TrimEndsWithBracket(s: string)
    requires s != "" && s[0] == '[' && s[|s| - 1] == ']'
    ensures Trim(s) == s
  {
  }

  lemma HeaderSkipped(name: string, rest: string, result: map<string, string>)
    requires '\n' !in name
    ensures ParseLines(Lines("[" + name + "]\n" + rest), result) == ParseLines(Lines(rest), result)
  {
    var line := "[" + name + "]";
    assert "[" + name + "]\n" + rest == line + (['\n'] + rest);
    LinesCons(line, rest);
    TrimEndsWithBracket(line);
    assert ([line] + Lines(rest))[1..] == Lines(rest);
  }

  lemma BlankSkipped(rest: string, result: map<string, string>)
    ensures ParseLines(Lines("\n" + rest), result) == ParseLines(Lines(rest), result)
  {
    assert "\n" + rest == "" + (['\n'] + rest);
    LinesCons("", rest);
    assert ([""] + Lines(rest))[1..] == Lines(rest);
  }

  ghost predicate SectionsSurvive(sections: seq<(string, seq<(string, string)>)>) {
    forall i :: 0 <= i < |sections| ==> '\n' !in sections[i].0 && AllSurvive(sections[i].1)
  }

  lemma {:induction false} SectionsRead(sections: seq<(string, seq<(string, string)>)>, result: map<string, string>)
    requires SectionsSurvive(sections)
    ensures ParseLines(Lines(ToIni(AsSections(sections))), result) == Union(sections, result)
    decreases sections
  {
    if sections == [] {
      ParseNothing(result);
    } else {
      var (name, section) := sections[0];
      var tail := ToIni(AsSections(sections[1..]));
      assert AsSections(sections)[1..] == AsSections(sections[1..]);
      PrintedIsIni(section);
      assert ToIni(AsSections(sections)) == "[" + name + "]\n" + (Printed(section) + ("\n" + tail));
      HeaderSkipped(name, Printed(section) + ("\n" + tail), result);
      CleanSection(section, "\n" + tail, result);
      KeptAll(section, result);
      BlankSkipped(tail, MapOf(section, result));
      SectionsRead(sections[1..], MapOf(section, result));
    }
  }

  /** Reading what was written for several sections gives their union, the later section winning. */
  lemma SectionsRoundTrip(sections: seq<(string, seq<(string, string)>)>)
    requires SectionsSurvive(sections)
    ensures Read(ToIni(AsSections(sections))) == Union(sections, map[])
  {
    SectionsRead(sections, map[]);
    var text := ToIni(AsSections(sections));
    if sections != [] {
      assert text[0] == '[';
    }
  }
}
