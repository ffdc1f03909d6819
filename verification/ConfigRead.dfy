/** What a load makes of a text, setting by setting: the last line that sets a
    key decides it, what is not set gets its default, and the user's nodes are
    kept but for the old port. */
module ConfigRead {
  import opened CStrings
  import opened Config
  import opened Options

  // ── the lines, and the last word on a key ───────────────────────────

  /** The lines as the 512-byte buffer receives them. */
  function LinesOf(text: string): seq<string>
    decreases |text|
  {
    if text == "" then []
    else
      var n := ChunkLen(text);
      [Content(text[..n])] + LinesOf(text[n..])
  }

  /** The value a line "key=value" gives the key. */
  function ValueOn(line: string, key: string): Option<string> {
    if |line| > |key| && line[..|key|] == key && line[|key|] == '=' then Some(line[|key| + 1..]) else None
  }

  /** What the last line that sets the key says. */
  function LastOf(ls: seq<string>, key: string): Option<string> {
    if ls == [] then None
    else
      var v := ValueOn(ls[|ls| - 1], key);
      if v.Some? then v else LastOf(ls[..|ls| - 1], key)
  }

  /** What the last line that sets it to a number in range says. */
  function LastNumber(ls: seq<string>, key: string, low: int, high: int): Option<int> {
    if ls == [] then None
    else
      var v := ValueOn(ls[|ls| - 1], key);
      if v.Some? && low <= Atoi(v.value) <= high then Some(Atoi(v.value))
      else LastNumber(ls[..|ls| - 1], key, low, high)
  }

  function Or<T>(x: Option<T>, other: T): T { if x.Some? then x.value else other }

  /** The nodes the text names: the first eight fields between commas that are
      not blank, 63 bytes of each. */
  function Named(ls: seq<string>): seq<string> {
    var fs := Fields(Or(LastOf(ls, "bootstrap_nodes"), ""));
    var n := if |fs| < 8 then |fs| else 8;
    seq(n, i requires 0 <= i < n => Cut(fs[i], 63))
  }

  lemma NamedIs(value: string)
    ensures var fs := Fields(value);
            var n := if |fs| < 8 then |fs| else 8;
            NodesOf(value) == seq(n, i requires 0 <= i < n => Cut(fs[i], 63))
  {
    hide Fields, Cut;
  }

  /** A line of up to 510 bytes is read whole. */
  lemma LineTaken(line: string, rest: string)
    requires |line| <= 510 && '\n' !in line && '\0' !in line
    ensures LinesOf(line + "\n" + rest) == [line] + LinesOf(rest)
  {
    var text := line + "\n" + rest;
    assert text[..|line|] == line;
    IndexOfAt(text, '\n', |line|);
    assert text[..|line| + 1] == line + "\n" && text[|line| + 1..] == rest;
    ContentOf(line, "\n");
  }

  /** A longer one is read in pieces of 511. */
  lemma LineCut(piece: string, rest: string)
    requires |piece| == 511 && '\n' !in piece && '\0' !in piece
    ensures LinesOf(piece + rest) == [piece] + LinesOf(rest)
  {
    var text := piece + rest;
    assert text[..511] == piece && text[511..] == rest;
    NewlineLater(piece, rest);
    ContentOf(piece, "");
    assert piece + "" == piece;
  }

  lemma NewlineLater(piece: string, rest: string)
    requires '\n' !in piece
    ensures IndexOf(piece + rest, '\n') >= |piece|
  {
  }

  // ── one line ────────────────────────────────────────────────────────

  lemma {:induction false} TextLines(c: Settings, text: string)
    ensures ParseText(c, text) == ParseLines(c, LinesOf(text))
    decreases |text|
  {
    hide ParseLine, Content;
    if text != "" {
      var n := ChunkLen(text);
      var line := Content(text[..n]);
      TextLines(ParseLine(c, line), text[n..]);
      ParseLinesCons(c, line, LinesOf(text[n..]));
    }
  }

  predicate Plain(key: string) { key != "" && key[0] != '#' && '=' !in key }

  lemma LineSets(c: Settings, line: string, key: string)
    requires Plain(key) && ValueOn(line, key).Some?
    ensures ParseLine(c, line) == SetKey(c, key, ValueOn(line, key).value)
  {
    hide SetKey;
    assert line[..|key|] == key;
    IndexOfAt(line, '=', |key|);
  }

  lemma LineKeeps(c: Settings, line: string)
    ensures var d := ParseLine(c, line);
            && (ValueOn(line, "log_level").None? ==> d.level == c.level)
            && (ValueOn(line, "log_tags").None? ==> d.tags == c.tags)
            && (ValueOn(line, "log_file_enabled").None? ==> d.enabled == c.enabled)
            && (ValueOn(line, "log_max_size_kb").None? ==> d.sizeKb == c.sizeKb)
            && (ValueOn(line, "log_max_files").None? ==> d.files == c.files)
            && (ValueOn(line, "bootstrap_nodes").None? ==> d.nodes == c.nodes)
  {
    hide NodesOf, Atoi, Cut;
  }

  /** The settings the lines leave, before defaults. */
  predicate ReadAs(ls: seq<string>, c: Settings) {
    && c.level == Cut(Or(LastOf(ls, "log_level"), ""), 15)
    && c.tags == Cut(Or(LastOf(ls, "log_tags"), ""), 511)
    && c.enabled == (if Atoi(Or(LastOf(ls, "log_file_enabled"), "0")) != 0 then 1 else 0)
    && c.sizeKb == Or(LastNumber(ls, "log_max_size_kb", 1, INT_MAX), 0)
    && c.files == Or(LastNumber(ls, "log_max_files", 1, 10), 0)
    && c.nodes == Named(ls)
  }

  lemma {:induction false} LinesRead(ls: seq<string>)
    ensures ReadAs(ls, ParseLines(BLANK, ls))
    decreases |ls|
  {
    hide ParseLine, ReadAs;
    if ls == [] {
      NothingRead();
    } else {
      var n := |ls| - 1;
      var c, line := ParseLines(BLANK, ls[..n]), ls[n];
      LinesRead(ls[..n]);
      ParseLinesJoin(BLANK, ls[..n], [line]);
      ParseLinesCons(c, line, []);
      assert ls == ls[..n] + [line];
      LineRead(ls, c, line);
    }
  }

  lemma NothingRead()
    ensures ReadAs([], BLANK)
  {
    assert Atoi("0") == 0;
  }

  lemma LineRead(ls: seq<string>, c: Settings, line: string)
    requires ls != [] && line == ls[|ls| - 1] && ReadAs(ls[..|ls| - 1], c)
    ensures ReadAs(ls, ParseLine(c, line))
  {
    hide ParseLine, ValueOn, Atoi, Cut, NodesOf, Fields;
    LineKeeps(c, line);
    if ValueOn(line, "log_level").Some? { LineSets(c, line, "log_level"); }
    if ValueOn(line, "log_tags").Some? { LineSets(c, line, "log_tags"); }
    if ValueOn(line, "log_file_enabled").Some? { LineSets(c, line, "log_file_enabled"); }
    if ValueOn(line, "log_max_size_kb").Some? { LineSets(c, line, "log_max_size_kb"); }
    if ValueOn(line, "log_max_files").Some? { LineSets(c, line, "log_max_files"); }
    if ValueOn(line, "bootstrap_nodes").Some? {
      LineSets(c, line, "bootstrap_nodes");
      NamedIs(ValueOn(line, "bootstrap_nodes").value);
    }
  }

  // ── the load ────────────────────────────────────────────────────────

  /** The node as it was, or its final ":4000" read as ":4001". */
  ghost predicate PortFixed(was: string, now: string) {
    && (forall host :: was == host + ":4000" ==> now == host + ":4001")
    && ((forall host :: was != host + ":4000") ==> now == was)
  }

  lemma FixedPort(node: string)
    ensures PortFixed(node, FixPort(node)) && (OldPort(node) <==> FixPort(node) != node)
  {
    if OldPort(node) {
      var n := |node| - 5;
      assert node == node[..n] + ":4000";
      assert FixPort(node)[n..] == ":4001" && node[n..] == ":4000";
      forall host | node == host + ":4000" ensures FixPort(node) == host + ":4001" {
        assert |host| == n && host == node[..n];
      }
    } else {
      forall host ensures node != host + ":4000" { EndsOld(node, host); }
    }
  }

  lemma EndsOld(node: string, host: string)
    ensures node == host + ":4000" ==> OldPort(node)
  {
  }

  /** The built-in list, as it stands in the source. */
  const BUILT_IN: seq<string> := [
    "154.38.182.161:4001", "164.68.105.227:4001", "164.68.116.180:4001",
    "161.97.85.25:4001", "156.67.24.125:4001", "156.67.25.251:4001"]

  /** The user's nodes are kept, port apart, unless there are fewer than six of
      them and the fallback is on; and the file is written again exactly when
      the list changed. */
  ghost predicate NodesKept(named: seq<string>, nodes: seq<string>, noFallback: bool, save: bool) {
    if |named| >= 6 || noFallback then
      && |nodes| == |named| && (forall i :: 0 <= i < |nodes| ==> PortFixed(named[i], nodes[i]))
      && (save <==> nodes != named)
    else nodes == BUILT_IN && save
  }

  /** Every other setting: what the text says, or its default. */
  predicate SettingsRead(ls: seq<string>, c: Settings) {
    var level, size := LastOf(ls, "log_level"), LastNumber(ls, "log_max_size_kb", 1, INT_MAX);
    && c.level == (if Or(level, "") == "" then "DEBUG" else Cut(level.value, 15))
    && c.tags == Cut(Or(LastOf(ls, "log_tags"), ""), 511)
    && if size.None? then c.sizeKb == 51200 && c.enabled == 1 && c.files == 3
       else
         && c.sizeKb == size.value && c.files == Or(LastNumber(ls, "log_max_files", 1, 10), 0)
         && c.enabled == (if Atoi(Or(LastOf(ls, "log_file_enabled"), "0")) != 0 then 1 else 0)
  }

  lemma {:induction false} NumberInRange(ls: seq<string>, key: string, low: int, high: int)
    ensures var v := LastNumber(ls, key, low, high); v.Some? ==> low <= v.value <= high
    decreases |ls|
  {
    hide Atoi, ValueOn;
    if ls != [] { NumberInRange(ls[..|ls| - 1], key, low, high); }
  }

  lemma FixedNodes(ns: seq<string>)
    ensures forall i :: 0 <= i < |ns| ==> PortFixed(ns[i], FixPorts(ns)[i])
    ensures AnyOldPort(ns) <==> FixPorts(ns) != ns
  {
    hide FixPort, OldPort, PortFixed;
    forall i | 0 <= i < |ns| ensures PortFixed(ns[i], FixPort(ns[i])) && (OldPort(ns[i]) <==> FixPort(ns[i]) != ns[i]) {
      FixedPort(ns[i]);
    }
    if FixPorts(ns) != ns {
      assert exists i :: 0 <= i < |ns| && FixPorts(ns)[i] != ns[i];
    }
  }

  /** For every text. */
  lemma LoadReads(text: string, noFallback: bool)
    ensures var ls, r := LinesOf(text), LoadText(text, noFallback);
            SettingsRead(ls, r.config) && NodesKept(Named(ls), r.config.nodes, noFallback, r.save)
  {
    hide LoadText, LinesOf, SettingsRead, NodesKept, Named;
    SettingsLoaded(text, noFallback);
    NodesLoaded(text, noFallback);
  }

  lemma SettingsLoaded(text: string, noFallback: bool)
    ensures SettingsRead(LinesOf(text), LoadText(text, noFallback).config)
  {
    hide ParseText, ParseLines, LastOf, LastNumber, Named, Atoi, FixPorts, PortFixed, AnyOldPort, LinesOf;
    var ls := LinesOf(text);
    TextLines(BLANK, text);
    LinesRead(ls);
    NumberInRange(ls, "log_max_size_kb", 1, INT_MAX);
  }

  lemma NodesLoaded(text: string, noFallback: bool)
    ensures var r := LoadText(text, noFallback);
            NodesKept(Named(LinesOf(text)), r.config.nodes, noFallback, r.save)
  {
    hide ParseText, ParseLines, LastOf, LastNumber, Named, Atoi, FixPorts, PortFixed, AnyOldPort, LinesOf;
    var c := ParseText(BLANK, text);
    TextLines(BLANK, text);
    LinesRead(LinesOf(text));
    FixedNodes(c.nodes);
    BuiltIn();
  }

  lemma Two(n: nat, s: string)
    requires 10 <= n < 100 && s == [DigitChar(n / 10), DigitChar(n % 10)]
    ensures Decimal(n) == s
  {
    assert Decimal(n / 10) == [DigitChar(n / 10)];
  }

  lemma Three(n: nat, s: string)
    requires 100 <= n < 1000 && s == [DigitChar(n / 100), DigitChar(n / 10 % 10), DigitChar(n % 10)]
    ensures Decimal(n) == s
  {
    assert n / 10 / 10 == n / 100;
    Two(n / 10, s[..2]);
  }

  lemma BuiltIn()
    ensures DEFAULT_NODES == BUILT_IN
  {
    hide Decimal, Address;
    First();
    Second();
    Third();
    Fourth();
    Fifth();
    Sixth();
  }

  lemma First()
    ensures Address(154, 38, 182, 161) == "154.38.182.161:4001"
  {
    hide Decimal;
    Three(154, "154");
    Two(38, "38");
    Three(182, "182");
    Three(161, "161");
  }

  lemma Second()
    ensures Address(164, 68, 105, 227) == "164.68.105.227:4001"
  {
    hide Decimal;
    Three(164, "164");
    Two(68, "68");
    Three(105, "105");
    Three(227, "227");
  }

  lemma Third()
    ensures Address(164, 68, 116, 180) == "164.68.116.180:4001"
  {
    hide Decimal;
    Three(164, "164");
    Two(68, "68");
    Three(116, "116");
    Three(180, "180");
  }

  lemma Fourth()
    ensures Address(161, 97, 85, 25) == "161.97.85.25:4001"
  {
    hide Decimal;
    Three(161, "161");
    Two(97, "97");
    Two(85, "85");
    Two(25, "25");
  }

  lemma Fifth()
    ensures Address(156, 67, 24, 125) == "156.67.24.125:4001"
  {
    hide Decimal;
    Three(156, "156");
    Two(67, "67");
    Two(24, "24");
    Three(125, "125");
  }

  lemma Sixth()
    ensures Address(156, 67, 25, 251) == "156.67.25.251:4001"
  {
    hide Decimal;
    Three(156, "156");
    Two(67, "67");
    Two(25, "25");
    Three(251, "251");
  }
}
