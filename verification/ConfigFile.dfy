/** dna_config_t and the three functions that fill, print and apply it. The
    file is a text passed in and handed back; the environment's
    DNA_NO_FALLBACK is a flag. */
module ConfigFile {
  import opened CStrings
  import opened Config
  import ConfigRead
  import opened Options
  import opened Tokens

  /** A zeroed 512-byte buffer with the string copied in. */
  method BufferOf(value: string) returns (buf: array<char>)
    ensures fresh(buf) && Terminated(buf) && StrAt(buf, 0) == CStr(Cut(value, LINE_MAX))
  {
    buf := new char[LINE_MAX + 1](_ => '\0');
    var s := Cut(value, LINE_MAX);
    for i := 0 to |s|
      invariant buf[..i] == s[..i] && forall j :: i <= j < buf.Length ==> buf[j] == '\0'
    {
      buf[i] := s[i];
    }
    assert buf[0..] == s + buf[|s|..];
    ZeroTail(s, buf[|s|..]);
  }

  lemma ZeroTail(s: string, tail: string)
    requires tail != "" && forall j :: 0 <= j < |tail| ==> tail[j] == '\0'
    ensures CStr(s + tail) == CStr(s)
  {
    var n := IndexOf(s, '\0');
    assert (s + tail)[..n] == s[..n];
    IndexOfAt(s + tail, '\0', n);
  }

  class ConfigData {
    var logLevel: string
    var logTags: string
    var logFileEnabled: int
    var logMaxSizeKb: int
    var logMaxFiles: int
    const bootstrapNodes: array<string>
    var bootstrapCount: nat

    ghost predicate Valid()
      reads this
    {
      bootstrapNodes.Length == MAX_NODES && bootstrapCount <= MAX_NODES
    }

    ghost function Abs(): Settings
      reads this, bootstrapNodes
      requires Valid()
    {
      Settings(logLevel, logTags, logFileEnabled, logMaxSizeKb, logMaxFiles, bootstrapNodes[..bootstrapCount])
    }

    constructor ()
      ensures Valid() && fresh(bootstrapNodes) && Abs() == BLANK
    {
      logLevel, logTags := "", "";
      logFileEnabled, logMaxSizeKb, logMaxFiles, bootstrapCount := 0, 0, 0, 0;
      bootstrapNodes := new string[MAX_NODES](_ => "");
    }

    /** Trims the token in place and copies it, unless nothing is left. */
    method StoreNode(buf: array<char>, tok: nat, ghost next: nat)
      requires Valid() && bootstrapCount < MAX_NODES && Terminated(buf)
      requires tok < next < buf.Length && tok + |StrAt(buf, tok)| <= next
      modifies this`bootstrapCount, bootstrapNodes, buf
      ensures Valid() && Terminated(buf) && buf[next..] == old(buf[next..])
      ensures bootstrapNodes[..bootstrapCount]
           == old(bootstrapNodes[..bootstrapCount]) + CutAll(old(FieldAt(StrAt(buf, tok))))
      ensures bootstrapCount == old(bootstrapCount) + |old(FieldAt(StrAt(buf, tok)))|
    {
      hide Trim, CStr;
      ghost var f, before := StrAt(buf, tok), buf[..];
      var t := TrimToken(buf, tok);
      var len := StrLen(buf, t);
      RestKept(before, buf[..], tok + |f|, next);
      assert buf[..][next..] == buf[next..] && before[next..] == old(buf[next..]);
      if len > 0 {
        bootstrapNodes[bootstrapCount] := Cut(buf[t..t + len], NODE_MAX);
        bootstrapCount := bootstrapCount + 1;
      }
    }

    /** The comma-separated node list: strtok, trim in place, copy at most 63
        bytes, at most eight nodes. */
    method ParseNodes(value: string)
      requires Valid() && |value| <= LINE_MAX && '\0' !in value
      modifies this`bootstrapCount, bootstrapNodes
      ensures Valid() && bootstrapNodes[..bootstrapCount] == NodesOf(value)
    {
      hide Fields, FieldAt, CStr, CutAll;
      bootstrapCount := 0;
      WholeString(value);
      var buf := BufferOf(value);
      var found: bool, tok: nat, next: nat := StrTok(buf, 0);
      ghost var done: seq<string> := [];
      while found && bootstrapCount < MAX_NODES
        invariant Valid() && Terminated(buf) && fresh(buf) && |done| == bootstrapCount
        invariant bootstrapNodes[..bootstrapCount] == CutAll(done)
        invariant found ==> tok < next < buf.Length && tok + |StrAt(buf, tok)| <= next
        invariant Fields(value) == done + (if found then FieldAt(StrAt(buf, tok)) + Fields(StrAt(buf, next)) else [])
        decreases if found then buf.Length - next else -1
      {
        ghost var f, rest := FieldAt(StrAt(buf, tok)), Fields(StrAt(buf, next));
        CutAllJoin(done, f);
        Regroup(done, f, rest);
        done := done + f;
        StoreNode(buf, tok, next);
        assert Fields(StrAt(buf, next)) == rest;
        found, tok, next := StrTok(buf, next);
        assert Fields(value) == done + rest;
      }
      EightDone(Fields(value), done);
    }

    /** One line of the file. */
    method ParseInto(line: string)
      requires Valid() && |line| <= LINE_MAX && '\0' !in line
      modifies this, bootstrapNodes
      ensures Valid() && Abs() == ParseLine(old(Abs()), line)
    {
      hide NodesOf, Atoi;
      if line == "" || line[0] == '#' { return; }
      var i := IndexOf(line, '=');
      if i == |line| { return; }
      var key, value := line[..i], line[i + 1..];
      if key == "log_level" {
        logLevel := Cut(value, LEVEL_MAX);
      } else if key == "log_tags" {
        logTags := Cut(value, TAGS_MAX);
      } else if key == "log_file_enabled" {
        logFileEnabled := if Atoi(value) != 0 then 1 else 0;
      } else if key == "log_max_size_kb" {
        var val := Atoi(value);
        if val > 0 { logMaxSizeKb := val; }
      } else if key == "log_max_files" {
        var val := Atoi(value);
        if val > 0 && val <= 10 { logMaxFiles := val; }
      } else if key == "bootstrap_nodes" {
        ParseNodes(value);
      }
    }

    /** The fgets loop. */
    method ReadLines(text: string)
      requires Valid()
      modifies this, bootstrapNodes
      ensures Valid() && Abs() == ParseText(old(Abs()), text)
    {
      hide ParseLine, Content, ParseText;
      var pos := 0;
      assert text[0..] == text;
      while pos < |text|
        invariant 0 <= pos <= |text| && Valid()
        invariant ParseText(Abs(), text[pos..]) == ParseText(old(Abs()), text)
      {
        var n := ChunkLen(text[pos..]);
        var chunk := text[pos..pos + n];
        assert text[pos..][..n] == chunk && text[pos..][n..] == text[pos + n..];
        ParseStep(Abs(), text[pos..]);
        ContentIsOneLine(chunk);
        ParseInto(Content(chunk));
        pos := pos + n;
      }
      assert text[pos..] == "";
      ParseEnd(Abs());
    }

    /** Port 4000 becomes 4001, in place. */
    method FixOldPorts() returns (changed: bool)
      requires Valid()
      modifies bootstrapNodes
      ensures bootstrapNodes[..bootstrapCount] == FixPorts(old(bootstrapNodes[..bootstrapCount]))
      ensures changed <==> AnyOldPort(old(bootstrapNodes[..bootstrapCount]))
    {
      hide FixPort, OldPort;
      ghost var ns := bootstrapNodes[..bootstrapCount];
      changed := false;
      for i := 0 to bootstrapCount
        invariant forall j :: 0 <= j < i ==> bootstrapNodes[j] == FixPort(ns[j])
        invariant forall j :: i <= j < bootstrapCount ==> bootstrapNodes[j] == ns[j]
        invariant changed <==> exists j :: 0 <= j < i && OldPort(ns[j])
      {
        var stale, node := FixNode(bootstrapNodes[i]);
        if stale {
          bootstrapNodes[i] := node;
          changed := true;
        }
      }
    }

    method UseDefaultNodes()
      requires Valid()
      modifies this`bootstrapCount, bootstrapNodes
      ensures Valid() && bootstrapNodes[..bootstrapCount] == DEFAULT_NODES
    {
      bootstrapCount := 0;
      while bootstrapCount < 6
        invariant bootstrapCount <= 6 && bootstrapNodes[..bootstrapCount] == DEFAULT_NODES[..bootstrapCount]
      {
        bootstrapNodes[bootstrapCount] := DEFAULT_NODES[bootstrapCount];
        bootstrapCount := bootstrapCount + 1;
      }
      assert DEFAULT_NODES[..6] == DEFAULT_NODES;
    }

    /** A first start: the defaults, written at once. */
    method StartFresh(r: Remarks, noFallback: bool) returns (text: string)
      requires Valid() && bootstrapCount == 0
      modifies this, bootstrapNodes
      ensures Valid() && Abs() == Fresh(noFallback) && text == Print(r, Abs())
    {
      hide Print;
      logLevel, logTags := "DEBUG", "";
      logFileEnabled, logMaxSizeKb, logMaxFiles := 1, DEFAULT_SIZE_KB, DEFAULT_FILES;
      if !noFallback { UseDefaultNodes(); }
      text := Save(r);
    }

    /** The lines, the defaults of what they leave open, the migration. */
    method ReadFile(r: Remarks, text: string, noFallback: bool) returns (written: Option<string>)
      requires Valid() && Abs() == BLANK
      modifies this, bootstrapNodes
      ensures Valid()
      ensures var l := LoadText(text, noFallback);
              Abs() == l.config && written == if l.save then Some(Print(r, l.config)) else None
    {
      hide ParseText, FixPorts, AnyOldPort, Print;
      ReadLines(text);
      if logLevel == "" { logLevel := "DEBUG"; }
      if logMaxSizeKb == 0 {
        logFileEnabled, logMaxSizeKb, logMaxFiles := 1, DEFAULT_SIZE_KB, DEFAULT_FILES;
      }
      assert Abs() == WithDefaults(ParseText(BLANK, text));
      var needsSave := FixOldPorts();
      if bootstrapCount < 6 && !noFallback {
        UseDefaultNodes();
        needsSave := true;
      }
      assert Abs() == LoadText(text, noFallback).config;
      written := None;
      if needsSave {
        var printed := Save(r);
        written := Some(printed);
      }
    }

    /** Loads the file, or the defaults when there is none; `written` is what
        a migration, or a first start, writes back. */
    method Load(r: Remarks, file: Option<string>, noFallback: bool) returns (written: Option<string>)
      requires Valid()
      modifies this, bootstrapNodes
      ensures Valid()
      ensures file.None? ==>
        && Abs() == Settings("DEBUG", "", 1, 51200, 3, if noFallback then [] else ConfigRead.BUILT_IN)
        && Abs() == Fresh(noFallback) && written == Some(Print(r, Abs()))
      ensures file.Some? ==>
        var ls, l := ConfigRead.LinesOf(file.value), LoadText(file.value, noFallback);
        && ConfigRead.SettingsRead(ls, Abs())
        && ConfigRead.NodesKept(ConfigRead.Named(ls), Abs().nodes, noFallback, written.Some?)
        && Abs() == l.config && written == if l.save then Some(Print(r, l.config)) else None
    {
      hide Print, LoadText, ConfigRead.SettingsRead, ConfigRead.NodesKept, ConfigRead.LinesOf, ConfigRead.Named;
      logLevel, logTags := "", "";
      logFileEnabled, logMaxSizeKb, logMaxFiles, bootstrapCount := 0, 0, 0, 0;
      if file.None? {
        ConfigRead.BuiltIn();
        var text := StartFresh(r, noFallback);
        return Some(text);
      }
      assert Abs() == BLANK;
      ConfigRead.LoadReads(file.value, noFallback);
      written := ReadFile(r, file.value, noFallback);
    }

    /** The text of the file. */
    method Save(r: Remarks) returns (text: string)
      requires Valid()
      ensures text == Print(r, Abs())
    {
      hide Number, Unlines;
      var list := "";
      for i := 0 to bootstrapCount
        invariant list == Join(bootstrapNodes[..i])
      {
        JoinSnoc(bootstrapNodes[..i], bootstrapNodes[i]);
        assert bootstrapNodes[..i + 1] == bootstrapNodes[..i] + [bootstrapNodes[i]];
        if i > 0 { list := list + ","; }
        list := list + bootstrapNodes[i];
      }
      var lines := [r(FileNote), ""];
      lines := lines + [r(LevelNote), Row("log_level", logLevel), ""];
      lines := lines + [r(TagsNote), Row("log_tags", logTags), ""];
      lines := lines + [r(EnabledNote), Row("log_file_enabled", Number(logFileEnabled)), ""];
      lines := lines + [r(SizeNote), Row("log_max_size_kb", Number(logMaxSizeKb)), ""];
      lines := lines + [r(FilesNote), Row("log_max_files", Number(logMaxFiles)), ""];
      lines := lines + [r(NodesNote), Row("bootstrap_nodes", list)];
      text := WriteLines(lines);
    }

    /** The tags the log filter is told to show. */
    method EnabledTags() returns (tags: seq<string>)
      requires Valid() && |logTags| <= TAGS_MAX && '\0' !in logTags
      ensures tags == Fields(logTags)
    {
      hide Fields, FieldAt, CStr;
      tags := [];
      if logTags == "" {
        NoFields();
        return;
      }
      WholeString(logTags);
      var buf := BufferOf(logTags);
      var found: bool, tok: nat, next: nat := StrTok(buf, 0);
      while found
        invariant Terminated(buf) && fresh(buf)
        invariant found ==> tok < next < buf.Length && tok + |StrAt(buf, tok)| <= next
        invariant Fields(logTags) == tags + (if found then FieldAt(StrAt(buf, tok)) + Fields(StrAt(buf, next)) else [])
        decreases if found then buf.Length - next else -1
      {
        ghost var f, rest := FieldAt(StrAt(buf, tok)), Fields(StrAt(buf, next));
        Regroup(tags, f, rest);
        var more := TagOf(buf, tok, next);
        tags := tags + more;
        assert Fields(StrAt(buf, next)) == rest;
        found, tok, next := StrTok(buf, next);
        assert Fields(logTags) == tags + rest;
      }
    }
  }

  /** One token trimmed in place: a tag, or nothing. */
  method TagOf(buf: array<char>, tok: nat, ghost next: nat) returns (tag: seq<string>)
    requires Terminated(buf) && tok < next < buf.Length && tok + |StrAt(buf, tok)| <= next
    modifies buf
    ensures Terminated(buf) && buf[next..] == old(buf[next..])
    ensures tag == old(FieldAt(StrAt(buf, tok)))
  {
    hide Trim, CStr;
    ghost var f, before := StrAt(buf, tok), buf[..];
    var t := TrimToken(buf, tok);
    var len := StrLen(buf, t);
    RestKept(before, buf[..], tok + |f|, next);
    assert buf[..][next..] == buf[next..] && before[next..] == old(buf[next..]);
    tag := if len > 0 then [buf[t..t + len]] else [];
  }

  /** strrchr. */
  method LastIndexOf(s: string, c: char) returns (found: bool, i: nat)
    ensures found ==> i < |s| && s[i] == c && c !in s[i + 1..]
    ensures !found ==> c !in s
  {
    i := |s|;
    while i > 0
      invariant i <= |s| && c !in s[i..]
    {
      i := i - 1;
      if s[i] == c { return true, i; }
      assert s[i..] == [s[i]] + s[i + 1..];
    }
    return false, 0;
  }

  method FixNode(node: string) returns (stale: bool, fixed: string)
    ensures stale == OldPort(node) && fixed == FixPort(node) && (!stale ==> fixed == node)
  {
    var found, colon := LastIndexOf(node, ':');
    OldPortAt(node, found, colon);
    stale := found && node[colon..] == ":4000";
    fixed := if stale then node[..colon] + ":4001" else node;
  }

  lemma TailHas(s: string, i: nat, k: nat, c: char)
    ensures i < k < |s| && s[k] == c ==> c in s[i + 1..]
  {
    if i < k < |s| && s[k] == c { assert s[i + 1..][k - i - 1] == c; }
  }

  lemma EndsInPort(node: string)
    requires OldPort(node)
    ensures var k := |node| - 5; node[k] == ':' && ':' !in node[k + 1..]
  {
    var k := |node| - 5;
    assert node[k] == node[k..][0];
    assert node[k + 1..] == node[k..][1..] == "4000";
  }

  /** The last colon starts ":4000" exactly when the node ends so. */
  lemma OldPortAt(node: string, found: bool, colon: nat)
    requires found ==> colon < |node| && node[colon] == ':' && ':' !in node[colon + 1..]
    requires !found ==> ':' !in node
    ensures OldPort(node) <==> found && node[colon..] == ":4000"
    ensures OldPort(node) ==> colon == |node| - 5
  {
    if OldPort(node) {
      EndsInPort(node);
      TailHas(node, colon, |node| - 5, ':');
      TailHas(node, |node| - 5, colon, ':');
    }
  }

  lemma ParseStep(c: Settings, text: string)
    requires text != ""
    ensures ParseText(c, text) == ParseText(ParseLine(c, Content(text[..ChunkLen(text)])), text[ChunkLen(text)..])
  {
  }

  lemma ParseEnd(c: Settings)
    ensures ParseText(c, "") == c
  {
  }

  method WriteLines(lines: seq<string>) returns (text: string)
    ensures text == Unlines(lines)
  {
    text := "";
    var i := |lines|;
    while i > 0
      invariant 0 <= i <= |lines| && text == Unlines(lines[i..])
    {
      i := i - 1;
      text := lines[i] + "\n" + text;
      assert lines[i..][1..] == lines[i + 1..];
    }
    assert lines[0..] == lines;
  }

  lemma {:induction false} JoinSnoc(fs: seq<string>, f: string)
    ensures Join(fs + [f]) == if fs == [] then f else Join(fs) + "," + f
  {
    if fs == [] {
      assert fs + [f] == [f];
    } else if |fs| > 1 {
      assert (fs + [f])[1..] == fs[1..] + [f];
      JoinSnoc(fs[1..], f);
      assert fs[0] + "," + (Join(fs[1..]) + "," + f) == fs[0] + "," + Join(fs[1..]) + "," + f;
    } else {
      assert (fs + [f])[1..] == [f];
    }
  }

  lemma WholeString(value: string)
    requires |value| <= LINE_MAX && '\0' !in value
    ensures CStr(Cut(value, LINE_MAX)) == value
  {
    IndexOfAt(value, '\0', |value|);
    assert value[..|value|] == value;
  }

  lemma RestKept(a: string, b: string, end: nat, next: nat)
    requires |a| == |b| && end <= next <= |a| && b[end..] == a[end..]
    ensures b[next..] == a[next..]
  {
    assert b[next..] == b[end..][next - end..];
  }

  lemma CutAllJoin(a: seq<string>, b: seq<string>)
    ensures CutAll(a + b) == CutAll(a) + CutAll(b)
  {
  }

  lemma Regroup(a: seq<string>, b: seq<string>, c: seq<string>)
    ensures a + (b + c) == a + b + c
  {
  }

  lemma EightDone(fs: seq<string>, done: seq<string>)
    requires |done| <= MAX_NODES && done <= fs && (fs == done || |done| == MAX_NODES)
    ensures CutAll(done) == CutAll(FirstEight(fs))
  {
    assert FirstEight(fs) == done;
  }
}
