/** The messenger's configuration file: what loading a text means, what saving
    prints, and exactly when the two undo each other. */
module Config {
  import opened CStrings
  import opened Sums

  const LINE_MAX := 511          // a 512-byte line buffer, less its terminator
  const LEVEL_MAX := 15
  const TAGS_MAX := 511
  const NODE_MAX := 63
  const MAX_NODES := 8
  const DEFAULT_SIZE_KB := 51200
  const DEFAULT_FILES := 3

  datatype Settings = Settings(
    level: string, tags: string, enabled: int, sizeKb: int, files: int, nodes: seq<string>)

  const BLANK := Settings("", "", 0, 0, 0, [])

  /** "a.b.c.d:4001". */
  function Address(a: nat, b: nat, c: nat, d: nat): string {
    Decimal(a) + "." + Decimal(b) + "." + Decimal(c) + "." + Decimal(d) + ":4001"
  }

  const DEFAULT_NODES: seq<string> := [
    Address(154, 38, 182, 161), Address(164, 68, 105, 227), Address(164, 68, 116, 180),
    Address(161, 97, 85, 25), Address(156, 67, 24, 125), Address(156, 67, 25, 251)]

  // ── reading ─────────────────────────────────────────────────────────

  /** fgets: to the end of the line, or 511 bytes. */
  function ChunkLen(text: string): (n: nat)
    requires text != ""
    ensures 0 < n <= |text| && n <= LINE_MAX
  {
    var i := IndexOf(text, '\n');
    if i < LINE_MAX && i < |text| then i + 1
    else if |text| < LINE_MAX then |text| else LINE_MAX
  }

  /** The C string in the line buffer, its newline removed. */
  function Content(chunk: string): string {
    var t := CStr(chunk);
    t[..IndexOf(t, '\n')]
  }

  /** The first eight fields, each cut to 63 bytes. */
  function NodesOf(value: string): seq<string> {
    CutAll(FirstEight(Fields(value)))
  }

  function FirstEight(fs: seq<string>): seq<string> { if |fs| <= MAX_NODES then fs else fs[..MAX_NODES] }

  function CutAll(fs: seq<string>): (r: seq<string>)
    ensures |r| == |fs| && forall i :: 0 <= i < |r| ==> r[i] == Cut(fs[i], NODE_MAX)
  {
    seq(|fs|, i requires 0 <= i < |fs| => Cut(fs[i], NODE_MAX))
  }

  function SetKey(c: Settings, key: string, value: string): Settings {
    if key == "log_level" then c.(level := Cut(value, LEVEL_MAX))
    else if key == "log_tags" then c.(tags := Cut(value, TAGS_MAX))
    else if key == "log_file_enabled" then c.(enabled := if Atoi(value) != 0 then 1 else 0)
    else if key == "log_max_size_kb" then (if Atoi(value) > 0 then c.(sizeKb := Atoi(value)) else c)
    else if key == "log_max_files" then (if 0 < Atoi(value) <= 10 then c.(files := Atoi(value)) else c)
    else if key == "bootstrap_nodes" then c.(nodes := NodesOf(value))
    else c
  }

  /** Comments, blank lines and lines without '=' are skipped; the first '='
      ends the key. */
  function ParseLine(c: Settings, line: string): Settings {
    if line == "" || line[0] == '#' then c
    else
      var i := IndexOf(line, '=');
      if i == |line| then c else SetKey(c, line[..i], line[i + 1..])
  }

  function ParseText(c: Settings, text: string): Settings
    decreases |text|
  {
    if text == "" then c
    else
      var n := ChunkLen(text);
      ParseText(ParseLine(c, Content(text[..n])), text[n..])
  }

  // ── defaults and migration ──────────────────────────────────────────

  function WithDefaults(c: Settings): Settings {
    var d := if c.level == "" then c.(level := "DEBUG") else c;
    if d.sizeKb == 0 then d.(enabled := 1, sizeKb := DEFAULT_SIZE_KB, files := DEFAULT_FILES) else d
  }

  predicate OldPort(node: string) { |node| >= 5 && node[|node| - 5..] == ":4000" }

  /** Port 4000 becomes 4001. */
  function FixPort(node: string): string {
    if OldPort(node) then node[..|node| - 5] + ":4001" else node
  }

  function FixPorts(ns: seq<string>): (r: seq<string>)
    ensures |r| == |ns| && forall i :: 0 <= i < |r| ==> r[i] == FixPort(ns[i])
  {
    seq(|ns|, i requires 0 <= i < |ns| => FixPort(ns[i]))
  }

  predicate AnyOldPort(ns: seq<string>) { exists i :: 0 <= i < |ns| && OldPort(ns[i]) }

  datatype Loaded = Loaded(config: Settings, save: bool)

  /** Ports fixed, and a list shorter than six replaced, unless the fallback
      is disabled. */
  function Migrate(c: Settings, noFallback: bool): Loaded {
    if |c.nodes| < 6 && !noFallback then Loaded(c.(nodes := DEFAULT_NODES), true)
    else Loaded(c.(nodes := FixPorts(c.nodes)), AnyOldPort(c.nodes))
  }

  function LoadText(text: string, noFallback: bool): Loaded {
    Migrate(WithDefaults(ParseText(BLANK, text)), noFallback)
  }

  /** What a load without a file leaves, and writes. */
  function Fresh(noFallback: bool): Settings {
    Settings("DEBUG", "", 1, DEFAULT_SIZE_KB, DEFAULT_FILES, if noFallback then [] else DEFAULT_NODES)
  }

  // ── printing ────────────────────────────────────────────────────────

  function Number(n: int): string { if n < 0 then "-" + Decimal(-n) else Decimal(n) }

  function Row(key: string, value: string): string { key + "=" + value }

  /** Which comment line of the file. */
  datatype Note = FileNote | LevelNote | TagsNote | EnabledNote | SizeNote | FilesNote | NodesNote

  /** A comment line: its wording does not matter, only that it is one. */
  predicate IsRemark(s: string) { s != "" && s[0] == '#' && OneLine(s) }

  type Remark = s: string | IsRemark(s) witness "#"

  type Remarks = Note -> Remark

  /** A comment, its setting, and a blank line. */
  function Entry(r: Remarks, note: Note, key: string, value: string): seq<string> {
    [r(note), Row(key, value), ""]
  }

  /** The lines a save writes. */
  function PrintLines(r: Remarks, c: Settings): seq<string> {
    [r(FileNote), ""]
    + Entry(r, LevelNote, "log_level", c.level)
    + Entry(r, TagsNote, "log_tags", c.tags)
    + Entry(r, EnabledNote, "log_file_enabled", Number(c.enabled))
    + Entry(r, SizeNote, "log_max_size_kb", Number(c.sizeKb))
    + Entry(r, FilesNote, "log_max_files", Number(c.files))
    + [r(NodesNote), Row("bootstrap_nodes", Join(c.nodes))]
  }

  function Unlines(ls: seq<string>): string {
    if ls == [] then "" else ls[0] + "\n" + Unlines(ls[1..])
  }

  function Print(r: Remarks, c: Settings): string { Unlines(PrintLines(r, c)) }

  // ── reading what was printed ────────────────────────────────────────

  /** A line one buffer holds and no byte of which ends a string or a line. */
  predicate OneLine(s: string) { |s| <= LINE_MAX && '\n' !in s && '\0' !in s }

  lemma ContentOf(s: string, end: string)
    requires '\n' !in s && '\0' !in s && (end == "" || end == "\n")
    ensures Content(s + end) == s
  {
    var t := s + end;
    IndexOfAt(t, '\0', |t|);
    assert CStr(t) == t;
    IndexOfAt(t, '\n', |s|);
    assert t[..|s|] == s;
  }

  /** A printed line is parsed as a line, even when it fills the buffer and
      its newline is read on its own. */
  lemma ParsePrinted(c: Settings, s: string, rest: string)
    requires OneLine(s)
    ensures ParseText(c, s + "\n" + rest) == ParseText(ParseLine(c, s), rest)
  {
    var text := s + "\n" + rest;
    assert text[..|s|] == s;
    IndexOfAt(text, '\n', |s|);
    var n := ChunkLen(text);
    if |s| < LINE_MAX {
      assert text[..n] == s + "\n" && text[n..] == rest;
      ContentOf(s, "\n");
    } else {
      assert text[..n] == s + "" && text[n..] == "\n" + rest;
      ContentOf(s, "");
      ParseNewline(ParseLine(c, s), rest);
    }
  }

  lemma ParseNewline(c: Settings, rest: string)
    ensures ParseText(c, "\n" + rest) == ParseText(c, rest)
  {
    var text := "\n" + rest;
    IndexOfAt(text, '\n', 0);
    assert text[..1] == "" + "\n" && text[1..] == rest;
    ContentOf("", "\n");
  }

  function ParseLines(c: Settings, ls: seq<string>): Settings
    decreases |ls|
  {
    if ls == [] then c else ParseLines(ParseLine(c, ls[0]), ls[1..])
  }

  lemma {:induction false} ParseUnlines(c: Settings, ls: seq<string>)
    requires forall i :: 0 <= i < |ls| ==> OneLine(ls[i])
    ensures ParseText(c, Unlines(ls)) == ParseLines(c, ls)
    decreases |ls|
  {
    if ls != [] {
      ParsePrinted(c, ls[0], Unlines(ls[1..]));
      ParseUnlines(ParseLine(c, ls[0]), ls[1..]);
    }
  }

  lemma ParseRow(c: Settings, key: string, value: string)
    requires key != "" && key[0] != '#' && '=' !in key
    ensures ParseLine(c, Row(key, value)) == SetKey(c, key, value)
  {
    var line := Row(key, value);
    assert line[..|key|] == key && line[|key| + 1..] == value;
    IndexOfAt(line, '=', |key|);
  }

  lemma {:induction false} ParseLinesJoin(c: Settings, a: seq<string>, b: seq<string>)
    ensures ParseLines(c, a + b) == ParseLines(ParseLines(c, a), b)
    decreases |a|
  {
    if a == [] {
      assert a + b == b;
    } else {
      assert (a + b)[1..] == a[1..] + b;
      ParseLinesJoin(ParseLine(c, a[0]), a[1..], b);
    }
  }

  lemma ParseLinesCons(c: Settings, l: string, ls: seq<string>)
    ensures ParseLines(c, [l] + ls) == ParseLines(ParseLine(c, l), ls)
  {
    assert ([l] + ls)[1..] == ls;
  }

  lemma ParseEntry(r: Remarks, c: Settings, note: Note, key: string, value: string)
    requires key != "" && key[0] != '#' && '=' !in key
    ensures ParseLines(c, Entry(r, note, key, value)) == SetKey(c, key, value)
    ensures ParseLines(c, [r(note), Row(key, value)]) == SetKey(c, key, value)
  {
    ParseRow(c, key, value);
    var row, d := Row(key, value), SetKey(c, key, value);
    ParseLinesCons(d, "", []);
    ParseLinesCons(c, row, []);
    ParseLinesCons(c, row, [""]);
    ParseLinesCons(c, r(note), [row]);
    ParseLinesCons(c, r(note), [row, ""]);
  }

  // ── what every load ensures ─────────────────────────────────────────

  predicate Clean(s: string) { '\n' !in s && '\0' !in s }

  /** A node as the parser can leave it. */
  predicate ParsedNode(n: string) {
    0 < |n| <= NODE_MAX && n[0] != ' ' && ',' !in n && Clean(n)
  }

  predicate ParsedNodes(ns: seq<string>) {
    && |ns| <= MAX_NODES
    && (forall i :: 0 <= i < |ns| ==> ParsedNode(ns[i]))
    && JoinLen(ns) <= LINE_MAX - |"bootstrap_nodes="|
  }

  predicate Parsed(c: Settings) {
    && |c.level| <= LEVEL_MAX && Clean(c.level)
    && |c.tags| <= LINE_MAX - |"log_tags="| && Clean(c.tags)
    && 0 <= c.enabled <= 1 && 0 <= c.sizeKb <= INT_MAX && 0 <= c.files <= 10
    && ParsedNodes(c.nodes)
  }

  /** The configurations a load can return. */
  predicate Loadable(c: Settings, noFallback: bool) {
    && Parsed(c) && c.level != "" && c.sizeKb > 0
    && (noFallback || |c.nodes| >= 6)
    && !AnyOldPort(c.nodes)
  }

  lemma ContentIsOneLine(chunk: string)
    requires |chunk| <= LINE_MAX
    ensures OneLine(Content(chunk))
  {
    var t := CStr(chunk);
    assert forall c :: c in Content(chunk) ==> c in t;
  }

  lemma {:induction false} CutAllLen(fs: seq<string>)
    ensures JoinLen(CutAll(fs)) <= JoinLen(fs)
  {
    if |fs| > 1 {
      CutAllLen(fs[1..]);
      assert CutAll(fs)[1..] == CutAll(fs[1..]);
    }
  }

  lemma {:induction false} PrefixLen(fs: seq<string>, n: nat)
    requires n <= |fs|
    ensures JoinLen(fs[..n]) <= JoinLen(fs)
  {
    if n > 0 {
      PrefixLen(fs[1..], n - 1);
      assert fs[..n][1..] == fs[1..][..n - 1];
    }
  }

  lemma {:induction false} JoinLenBound(fs: seq<string>, m: nat)
    requires forall i :: 0 <= i < |fs| ==> |fs[i]| <= m
    ensures JoinLen(fs) <= (m + 1) * |fs|
  {
    if fs != [] { JoinLenBound(fs[1..], m); }
  }

  lemma NodesParsed(value: string)
    requires |value| <= LINE_MAX - |"bootstrap_nodes="| && Clean(value)
    ensures ParsedNodes(NodesOf(value))
  {
    var fs := Fields(value);
    FieldsOf(value);
    FieldsLen(value);
    if |fs| > MAX_NODES { PrefixLen(fs, MAX_NODES); }
    CutAllLen(FirstEight(fs));
  }

  lemma RowParts(line: string, i: nat)
    requires OneLine(line) && i < |line|
    ensures Clean(line[i + 1..]) && |line[i + 1..]| == |line| - i - 1
  {
    assert forall c :: c in line[i + 1..] ==> c in line;
  }

  lemma CutClean(s: string, n: nat)
    requires Clean(s)
    ensures Clean(Cut(s, n)) && |Cut(s, n)| <= n && |Cut(s, n)| <= |s|
  {
    assert forall c :: c in Cut(s, n) ==> c in s;
  }

  lemma ParseLineKeeps(c: Settings, line: string)
    requires Parsed(c) && OneLine(line)
    ensures Parsed(ParseLine(c, line))
  {
    hide ParsedNodes, Atoi;
    var i := IndexOf(line, '=');
    if line != "" && line[0] != '#' && i < |line| {
      RowParts(line, i);
      var value := line[i + 1..];
      CutClean(value, LEVEL_MAX);
      CutClean(value, TAGS_MAX);
      if line[..i] == "bootstrap_nodes" { NodesParsed(value); }
    }
  }

  lemma {:induction false} ParseTextKeeps(c: Settings, text: string)
    requires Parsed(c)
    ensures Parsed(ParseText(c, text))
    decreases |text|
  {
    hide Parsed;
    if text != "" {
      var n := ChunkLen(text);
      ContentIsOneLine(text[..n]);
      ParseLineKeeps(c, Content(text[..n]));
      ParseTextKeeps(ParseLine(c, Content(text[..n])), text[n..]);
    }
  }

  lemma FixPortNode(n: string)
    requires ParsedNode(n)
    ensures ParsedNode(FixPort(n)) && |FixPort(n)| == |n| && !OldPort(FixPort(n))
  {
    if OldPort(n) {
      var m := FixPort(n);
      assert m[|m| - 5..] == ":4001";
      assert forall c :: c in m ==> c in n || c in ":4001";
    }
  }

  lemma {:induction false} FixPortsLen(ns: seq<string>)
    requires forall i :: 0 <= i < |ns| ==> |FixPort(ns[i])| == |ns[i]|
    ensures JoinLen(FixPorts(ns)) == JoinLen(ns)
  {
    if |ns| > 1 {
      FixPortsLen(ns[1..]);
      assert FixPorts(ns)[1..] == FixPorts(ns[1..]);
    }
  }

  lemma FixPortsNodes(ns: seq<string>)
    requires ParsedNodes(ns)
    ensures ParsedNodes(FixPorts(ns)) && !AnyOldPort(FixPorts(ns))
  {
    forall i | 0 <= i < |ns| ensures ParsedNode(FixPort(ns[i])) && |FixPort(ns[i])| == |ns[i]| && !OldPort(FixPort(ns[i])) {
      assert ParsedNode(ns[i]);
      FixPortNode(ns[i]);
    }
    FixPortsLen(ns);
  }

  lemma ByteDecimal(n: nat)
    requires n < 256
    ensures 1 <= |Decimal(n)| <= 3
  {
    if n >= 10 {
      assert |Decimal(n)| == |Decimal(n / 10)| + 1;
      if n >= 100 {
        assert |Decimal(n / 10)| == |Decimal(n / 10 / 10)| + 1;
        assert n / 10 / 10 < 10;
      }
    }
  }

  lemma AddressNode(a: nat, b: nat, c: nat, d: nat)
    requires a < 256 && b < 256 && c < 256 && d < 256
    ensures ParsedNode(Address(a, b, c, d)) && |Address(a, b, c, d)| <= 20 && !OldPort(Address(a, b, c, d))
  {
    ByteDecimal(a);
    ByteDecimal(b);
    ByteDecimal(c);
    ByteDecimal(d);
    var n := Address(a, b, c, d);
    assert n[|n| - 5..] == ":4001";
    assert n[0] == Decimal(a)[0] && Decimal(a)[0] in Decimal(a);
    assert forall x :: x in n ==> IsDigit(x) || x == '.' || x == ':';
  }

  lemma DefaultsParsed()
    ensures ParsedNodes(DEFAULT_NODES) && !AnyOldPort(DEFAULT_NODES) && |DEFAULT_NODES| == 6
  {
    hide Address;
    AddressNode(154, 38, 182, 161);
    AddressNode(164, 68, 105, 227);
    AddressNode(164, 68, 116, 180);
    AddressNode(161, 97, 85, 25);
    AddressNode(156, 67, 24, 125);
    AddressNode(156, 67, 25, 251);
    JoinLenBound(DEFAULT_NODES, 20);
  }

  /** Whatever the file holds, a load returns a usable configuration: a level,
      a positive size, 0 to 10 files, at most eight nodes and at least six
      unless the fallback is disabled, none on the old port. */
  lemma LoadResult(text: string, noFallback: bool)
    ensures Loadable(LoadText(text, noFallback).config, noFallback)
  {
    hide ParsedNodes, AnyOldPort, ParseText;
    DefaultsParsed();
    BlankParsed();
    ParseTextKeeps(BLANK, text);
    var c := WithDefaults(ParseText(BLANK, text));
    FixPortsNodes(c.nodes);
  }

  lemma BlankParsed()
    ensures Parsed(BLANK)
  {
  }

  // ── loading what was saved ──────────────────────────────────────────

  predicate NoTrailingSpace(ns: seq<string>) {
    forall i :: 0 <= i < |ns| && ns[i] != "" ==> ns[i][|ns[i]| - 1] != ' '
  }

  function TrimAll(ns: seq<string>): (r: seq<string>)
    ensures |r| == |ns| && forall i :: 0 <= i < |r| ==> r[i] == Trim(ns[i])
  {
    seq(|ns|, i requires 0 <= i < |ns| => Trim(ns[i]))
  }

  /** A parsed node trims to itself or to something shorter, never to nothing. */
  lemma TrimNode(n: string)
    requires ParsedNode(n)
    ensures 0 < |Trim(n)| <= |n| && (Trim(n) == n <==> n[|n| - 1] != ' ')
    ensures n[|n| - 1] == ' ' ==> |Trim(n)| < |n|
  {
    TrimEnds(n);
    TrimRightEnds(n);
    if n[|n| - 1] != ' ' { TrimTrimmed(n); }
  }

  lemma {:induction false} NonBlankNodes(ns: seq<string>)
    requires forall i :: 0 <= i < |ns| ==> ParsedNode(ns[i])
    ensures NonBlank(ns) == TrimAll(ns)
  {
    if ns != [] {
      TrimNode(ns[0]);
      NonBlankNodes(ns[1..]);
      assert TrimAll(ns) == [Trim(ns[0])] + TrimAll(ns[1..]);
    }
  }

  /** The node list read back from its own line is the list trimmed. */
  lemma NodesOfJoin(ns: seq<string>)
    requires ParsedNodes(ns)
    ensures NodesOf(Join(ns)) == TrimAll(ns)
  {
    forall i | 0 <= i < |ns| ensures ',' !in ns[i] && |Trim(ns[i])| <= NODE_MAX {
      assert ParsedNode(ns[i]);
      TrimNode(ns[i]);
    }
    FieldsJoin(ns);
    NonBlankNodes(ns);
    assert CutAll(TrimAll(ns)) == TrimAll(ns);
  }

  lemma {:induction false} JoinClean(ns: seq<string>)
    requires forall i :: 0 <= i < |ns| ==> Clean(ns[i])
    ensures Clean(Join(ns))
  {
    if |ns| > 1 { JoinClean(ns[1..]); }
  }

  lemma NumberClean(n: nat)
    requires n <= INT_MAX
    ensures Clean(Number(n)) && |Number(n)| <= 10 && Atoi(Number(n)) == n
  {
    AtoiDecimal(n);
    DecimalLen(n, 10);
  }

  lemma {:induction false} DecimalLen(n: nat, k: nat)
    requires 0 < k && n < Pow(10, k)
    ensures |Decimal(n)| <= k
  {
    if n >= 10 { DecimalLen(n / 10, k - 1); }
  }

  lemma RowOneLine(key: string, value: string)
    requires Clean(key) && Clean(value) && |key| + 1 + |value| <= LINE_MAX
    ensures OneLine(Row(key, value))
  {
  }

  lemma EntryLines(r: Remarks, note: Note, key: string, value: string)
    requires Clean(key) && Clean(value) && |key| + 1 + |value| <= LINE_MAX
    ensures AllOneLine(Entry(r, note, key, value)) && AllOneLine([r(note), Row(key, value)])
  {
    RowOneLine(key, value);
  }

  /** The printed lines, one setting after the other. */
  ghost function ReadBack(c: Settings): Settings {
    var c1 := SetKey(BLANK, "log_level", c.level);
    var c2 := SetKey(c1, "log_tags", c.tags);
    var c3 := SetKey(c2, "log_file_enabled", Number(c.enabled));
    var c4 := SetKey(c3, "log_max_size_kb", Number(c.sizeKb));
    var c5 := SetKey(c4, "log_max_files", Number(c.files));
    SetKey(c5, "bootstrap_nodes", Join(c.nodes))
  }

  lemma ParsePrintLines(r: Remarks, c: Settings)
    ensures ParseLines(BLANK, PrintLines(r, c)) == ReadBack(c)
  {
    hide SetKey, Number;
    var p0 := [r(FileNote), ""];
    var p1 := p0 + Entry(r, LevelNote, "log_level", c.level);
    var p2 := p1 + Entry(r, TagsNote, "log_tags", c.tags);
    var p3 := p2 + Entry(r, EnabledNote, "log_file_enabled", Number(c.enabled));
    var p4 := p3 + Entry(r, SizeNote, "log_max_size_kb", Number(c.sizeKb));
    var p5 := p4 + Entry(r, FilesNote, "log_max_files", Number(c.files));
    var c1 := SetKey(BLANK, "log_level", c.level);
    var c2 := SetKey(c1, "log_tags", c.tags);
    var c3 := SetKey(c2, "log_file_enabled", Number(c.enabled));
    var c4 := SetKey(c3, "log_max_size_kb", Number(c.sizeKb));
    var c5 := SetKey(c4, "log_max_files", Number(c.files));
    ParseHeader(r);
    ParseBlock(r, BLANK, p0, BLANK, LevelNote, "log_level", c.level);
    ParseBlock(r, BLANK, p1, c1, TagsNote, "log_tags", c.tags);
    ParseBlock(r, BLANK, p2, c2, EnabledNote, "log_file_enabled", Number(c.enabled));
    ParseBlock(r, BLANK, p3, c3, SizeNote, "log_max_size_kb", Number(c.sizeKb));
    ParseBlock(r, BLANK, p4, c4, FilesNote, "log_max_files", Number(c.files));
    ParseBlock(r, BLANK, p5, c5, NodesNote, "bootstrap_nodes", Join(c.nodes));
  }

  lemma ParseHeader(r: Remarks)
    ensures ParseLines(BLANK, [r(FileNote), ""]) == BLANK
  {
    ParseLinesCons(BLANK, "", []);
    ParseLinesCons(BLANK, r(FileNote), [""]);
  }

  lemma ParseBlock(r: Remarks, c: Settings, before: seq<string>, mid: Settings, note: Note, key: string, value: string)
    requires ParseLines(c, before) == mid
    requires key != "" && key[0] != '#' && '=' !in key
    ensures ParseLines(c, before + Entry(r, note, key, value)) == SetKey(mid, key, value)
    ensures ParseLines(c, before + [r(note), Row(key, value)]) == SetKey(mid, key, value)
  {
    hide SetKey, ParseLine;
    ParseEntry(r, mid, note, key, value);
    ParseLinesJoin(c, before, Entry(r, note, key, value));
    ParseLinesJoin(c, before, [r(note), Row(key, value)]);
  }

  lemma ReadBackIs(c: Settings)
    requires Parsed(c) && c.sizeKb > 0
    ensures ReadBack(c) == c.(nodes := TrimAll(c.nodes))
  {
    hide Number, Atoi, NodesOf, TrimAll, ParsedNodes;
    NumberClean(c.enabled);
    NumberClean(c.sizeKb);
    NumberClean(c.files);
    NodesOfJoin(c.nodes);
    var c1 := SetKey(BLANK, "log_level", c.level);
    assert c1 == BLANK.(level := c.level);
    var c2 := SetKey(c1, "log_tags", c.tags);
    assert c2 == c1.(tags := c.tags);
    var c3 := SetKey(c2, "log_file_enabled", Number(c.enabled));
    assert c3 == c2.(enabled := c.enabled);
    var c4 := SetKey(c3, "log_max_size_kb", Number(c.sizeKb));
    assert c4 == c3.(sizeKb := c.sizeKb);
    var c5 := SetKey(c4, "log_max_files", Number(c.files));
    assert c5 == c4.(files := c.files);
  }

  predicate AllOneLine(ls: seq<string>) { forall i :: 0 <= i < |ls| ==> OneLine(ls[i]) }

  lemma AllOneLineJoin(a: seq<string>, b: seq<string>)
    requires AllOneLine(a) && AllOneLine(b)
    ensures AllOneLine(a + b)
  {
  }

  lemma PrintedOneLine(r: Remarks, c: Settings)
    requires Parsed(c)
    ensures AllOneLine(PrintLines(r, c))
  {
    PrintedValues(c);
    hide Number, Join, Row, OneLine, Parsed, AllOneLine;
    HeadLines(r);
    EntryLines(r, LevelNote, "log_level", c.level);
    EntryLines(r, TagsNote, "log_tags", c.tags);
    EntryLines(r, EnabledNote, "log_file_enabled", Number(c.enabled));
    EntryLines(r, SizeNote, "log_max_size_kb", Number(c.sizeKb));
    EntryLines(r, FilesNote, "log_max_files", Number(c.files));
    EntryLines(r, NodesNote, "bootstrap_nodes", Join(c.nodes));
    var p0 := [r(FileNote), ""];
    var p1 := p0 + Entry(r, LevelNote, "log_level", c.level);
    AllOneLineJoin(p0, Entry(r, LevelNote, "log_level", c.level));
    var p2 := p1 + Entry(r, TagsNote, "log_tags", c.tags);
    AllOneLineJoin(p1, Entry(r, TagsNote, "log_tags", c.tags));
    var p3 := p2 + Entry(r, EnabledNote, "log_file_enabled", Number(c.enabled));
    AllOneLineJoin(p2, Entry(r, EnabledNote, "log_file_enabled", Number(c.enabled)));
    var p4 := p3 + Entry(r, SizeNote, "log_max_size_kb", Number(c.sizeKb));
    AllOneLineJoin(p3, Entry(r, SizeNote, "log_max_size_kb", Number(c.sizeKb)));
    var p5 := p4 + Entry(r, FilesNote, "log_max_files", Number(c.files));
    AllOneLineJoin(p4, Entry(r, FilesNote, "log_max_files", Number(c.files)));
    AllOneLineJoin(p5, [r(NodesNote), Row("bootstrap_nodes", Join(c.nodes))]);
  }

  lemma HeadLines(r: Remarks)
    ensures AllOneLine([r(FileNote), ""])
  {
  }

  lemma PrintedValues(c: Settings)
    requires Parsed(c)
    ensures Clean(Number(c.enabled)) && |Number(c.enabled)| <= 10
    ensures Clean(Number(c.sizeKb)) && |Number(c.sizeKb)| <= 10
    ensures Clean(Number(c.files)) && |Number(c.files)| <= 10
    ensures Clean(Join(c.nodes)) && |Join(c.nodes)| <= LINE_MAX - |"bootstrap_nodes="|
  {
    NumberClean(c.enabled);
    NumberClean(c.sizeKb);
    NumberClean(c.files);
    forall i | 0 <= i < |c.nodes| ensures Clean(c.nodes[i]) { assert ParsedNode(c.nodes[i]); }
    JoinClean(c.nodes);
    JoinLength(c.nodes);
  }

  /** Loading the text a save wrote gives the configuration back, and saves
      nothing, exactly when it is one a load can return and no node of it
      ends in a space. */
  lemma LoadPrinted(r: Remarks, c: Settings, noFallback: bool)
    requires Loadable(c, noFallback)
    ensures LoadText(Print(r, c), noFallback) == Loaded(c, false) <==> NoTrailingSpace(c.nodes)
  {
    hide PrintLines, ReadBack, ParseLines, TrimAll, ParsedNode, Clean;
    PrintedOneLine(r, c);
    ParseUnlines(BLANK, PrintLines(r, c));
    ParsePrintLines(r, c);
    ReadBackIs(c);
    TrimmedNodes(c.nodes);
  }

  lemma TrimmedNodes(ns: seq<string>)
    requires forall i :: 0 <= i < |ns| ==> ParsedNode(ns[i])
    requires !AnyOldPort(ns)
    ensures NoTrailingSpace(ns) ==> TrimAll(ns) == ns && FixPorts(ns) == ns
    ensures !NoTrailingSpace(ns) ==> FixPorts(TrimAll(ns)) != ns
  {
    forall i | 0 <= i < |ns|
      ensures (Trim(ns[i]) == ns[i] <==> ns[i][|ns[i]| - 1] != ' ') && !OldPort(ns[i])
      ensures ns[i][|ns[i]| - 1] == ' ' ==> |FixPort(Trim(ns[i]))| < |ns[i]|
    {
      assert ParsedNode(ns[i]);
      TrimNode(ns[i]);
    }
    if !NoTrailingSpace(ns) {
      var i :| 0 <= i < |ns| && ns[i] != "" && ns[i][|ns[i]| - 1] == ' ';
      assert |FixPorts(TrimAll(ns))[i]| < |ns[i]|;
    }
  }

  /** Saving and loading undo each other exactly on the configurations a load
      can return, less those with a node that ends in a space. */
  lemma RoundTrip(r: Remarks, c: Settings, noFallback: bool)
    ensures LoadText(Print(r, c), noFallback) == Loaded(c, false)
       <==> Loadable(c, noFallback) && NoTrailingSpace(c.nodes)
  {
    hide LoadText, Print, Loadable, NoTrailingSpace;
    LoadResult(Print(r, c), noFallback);
    if Loadable(c, noFallback) { LoadPrinted(r, c, noFallback); }
  }

  /** After any load, loading what a save of it writes changes nothing and
      saves nothing, exactly when no node was cut just after a space. */
  lemma SecondLoad(r: Remarks, text: string, noFallback: bool)
    ensures var c := LoadText(text, noFallback).config;
            LoadText(Print(r, c), noFallback) == Loaded(c, false) <==> NoTrailingSpace(c.nodes)
  {
    hide LoadText, Print, Loadable, NoTrailingSpace;
    LoadResult(text, noFallback);
    LoadPrinted(r, LoadText(text, noFallback).config, noFallback);
  }

  /** A first start writes a file that loads as itself. */
  lemma FreshLoads(r: Remarks, noFallback: bool)
    ensures LoadText(Print(r, Fresh(noFallback)), noFallback) == Loaded(Fresh(noFallback), false)
  {
    hide LoadText, Print, ParsedNodes, AnyOldPort, NoTrailingSpace;
    DefaultsParsed();
    DefaultsTrimmed();
    NoNodes();
    FreshLoadable(Fresh(noFallback).nodes, noFallback);
    LoadPrinted(r, Fresh(noFallback), noFallback);
  }

  lemma FreshLoadable(ns: seq<string>, noFallback: bool)
    requires ParsedNodes(ns) && !AnyOldPort(ns) && (noFallback || |ns| >= 6)
    ensures Loadable(Settings("DEBUG", "", 1, DEFAULT_SIZE_KB, DEFAULT_FILES, ns), noFallback)
  {
    hide ParsedNodes, AnyOldPort;
  }

  lemma NoNodes()
    ensures ParsedNodes([]) && !AnyOldPort([]) && NoTrailingSpace([])
  {
  }

  lemma AddressEnds(a: nat, b: nat, c: nat, d: nat)
    ensures var n := Address(a, b, c, d); n != "" && n[|n| - 1] == '1'
  {
  }

  lemma DefaultsTrimmed()
    ensures NoTrailingSpace(DEFAULT_NODES)
  {
    hide Address;
    AddressEnds(154, 38, 182, 161);
    AddressEnds(164, 68, 105, 227);
    AddressEnds(164, 68, 116, 180);
    AddressEnds(161, 97, 85, 25);
    AddressEnds(156, 67, 24, 125);
    AddressEnds(156, 67, 25, 251);
  }

  function Repeat(c: char, n: nat): (r: string)
    ensures |r| == n && forall i :: 0 <= i < n ==> r[i] == c
  {
    seq(n, i => c)
  }

  /** A field of 62 letters, a space and a letter is cut just after the space:
      the saved node does not come back. */
  lemma CutAfterSpace(r: Remarks)
    ensures var text := Row("bootstrap_nodes", Repeat('a', 62) + " a");
            var c := LoadText(text, true).config;
            c.nodes == [Repeat('a', 62) + " "] && LoadText(Print(r, c), true) != Loaded(c, false)
  {
    var field := Repeat('a', 62) + " a";
    var text := Row("bootstrap_nodes", field);
    CutField(field);
    var c := LoadText(text, true).config;
    assert c.nodes[0] == Repeat('a', 62) + " ";
    assert !NoTrailingSpace(c.nodes);
    hide LoadText;
    SecondLoad(r, text, true);
  }

  lemma ParseLast(c: Settings, s: string)
    requires OneLine(s) && s != ""
    ensures ParseText(c, s) == ParseLine(c, s)
  {
    IndexOfAt(s, '\n', |s|);
    assert s[..|s|] == s + "" && s[|s|..] == "";
    ContentOf(s, "");
  }

  lemma NodesOne(field: string)
    requires Trimmed(field) && ',' !in field
    ensures NodesOf(field) == [Cut(field, NODE_MAX)]
  {
    TrimTrimmed(field);
    FieldsOne(field);
  }

  lemma CutField(field: string)
    requires field == Repeat('a', 62) + " a"
    ensures LoadText(Row("bootstrap_nodes", field), true).config.nodes == [Repeat('a', 62) + " "]
  {
    hide ParseText, NodesOf, ParseLine, Row, Migrate, WithDefaults;
    assert forall x :: x in field ==> x == 'a' || x == ' ';
    RowOneLine("bootstrap_nodes", field);
    RowNonempty("bootstrap_nodes", field);
    ParseLast(BLANK, Row("bootstrap_nodes", field));
    ParseRow(BLANK, "bootstrap_nodes", field);
    NodesOne(field);
    var node := Repeat('a', 62) + " ";
    assert Cut(field, NODE_MAX) == node;
    assert node[|node| - 5..][4] == ' ';
    MigrateOne(SetKey(BLANK, "bootstrap_nodes", field), node);
  }

  lemma MigrateOne(c: Settings, node: string)
    requires c.nodes == [node] && !OldPort(node)
    ensures Migrate(WithDefaults(c), true).config.nodes == [node]
  {
  }

  lemma RowNonempty(key: string, value: string)
    ensures Row(key, value) != ""
  {
  }
}
