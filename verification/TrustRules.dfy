/** The trust format from the writing side: which bytes stand where, which
    texts are a state written out, and which file a directory admits. What is
    read is exactly what can be written. */
module TrustRules {
  import opened CStrings
  import opened DebVersion
  import opened Options
  import opened TrustBody
  import opened TrustFile
  import opened TrustChain
  import opened VersionLaws

  // ── bytes in their places ───────────────────────────────────────────

  /** A file: version 1, the serial, the signer's fingerprint, the body after
      its length, the signature after its length. */
  lemma FileLayout(t: File)
    requires |t.signer| == 64 && |t.body| <= 65536 && |t.sig| == 4627
    ensures var f, n := Print(t), |t.body|;
            && |f| == 4706 + n && f[0] as int == 1 && f[1..9] == Be(t.serial, 8) && f[9..73] == t.signer
            && f[73..77] == Be(n, 4) && f[77..77 + n] == t.body && f[77 + n..79 + n] == Be(4627, 2)
            && f[79 + n..] == t.sig
  {
    hide Be;
  }

  /** The signed message: the tag, the serial, the digest of the previous file,
      the signer's fingerprint, the digest of the body. */
  lemma MessageLayout(hash: string -> string, serial: nat, prev: string, signer: string, body: string)
    requires |prev| == 64 && |signer| == 64 && |hash(body)| == 64
    ensures var m := Message(hash, serial, prev, signer, body);
            && |m| == 216 && m[..16] == "NDS.QGPTRUST.v1\0" && m[16..24] == Be(serial, 8)
            && m[24..88] == prev && m[88..152] == signer && m[152..] == hash(body)
  {
    hide Be;
    assert |TAG| == 16;
  }

  // ── hexadecimal ─────────────────────────────────────────────────────

  function HexDigit(d: nat): (c: char)
    requires d < 16
    ensures IsHex(c) && Nibble(c) == d
  {
    if d < 10 then ('0' as int + d) as char else ('a' as int + d - 10) as char
  }

  function Hex(s: string): (r: string)
    requires IsBytes(s)
    ensures |r| == 2 * |s| && forall i :: 0 <= i < |r| ==> IsHex(r[i])
  {
    if s == "" then ""
    else
      var b := s[|s| - 1] as int;
      Hex(s[..|s| - 1]) + [HexDigit(b / 16), HexDigit(b % 16)]
  }

  lemma {:induction false} UnhexHex(s: string)
    requires IsBytes(s)
    ensures LowerHex(Hex(s), |s|) && Unhex(Hex(s), |s|) == s
    decreases |s|
  {
    if s != "" {
      var n := |s| - 1;
      var h, b := Hex(s), s[n] as int;
      UnhexHex(s[..n]);
      assert h[..2 * n] == Hex(s[..n]);
      assert Nibble(h[2 * n]) * 16 + Nibble(h[2 * n + 1]) == b;
      assert s == s[..n] + [s[n]];
    }
  }

  lemma {:induction false} UnhexBytes(s: string, n: nat)
    requires LowerHex(s, n)
    ensures IsBytes(Unhex(s, n))
    decreases n
  {
    if n > 0 { UnhexBytes(s[..2 * (n - 1)], n - 1); }
  }

  // ── lines ───────────────────────────────────────────────────────────

  predicate PackageChar(c: char) { 'a' <= c <= 'z' || '0' <= c <= '9' || c == '+' || c == '-' || c == '.' }

  predicate PackageName(s: string) {
    && |s| >= 2 && s[0] != '+' && s[0] != '-' && s[0] != '.'
    && forall i :: 0 <= i < |s| ==> PackageChar(s[i])
  }

  /** A record a state may hold: a key with its own fingerprint, a fingerprint,
      or a version of a package. */
  predicate RecordOk(hash: string -> string, r: Record) {
    match r
    case Pinned(fp, pk) => |fp| == 64 && |pk| == 2592 && IsBytes(fp) && IsBytes(pk) && hash(pk) == fp
    case Revoked(fp) => |fp| == 64 && IsBytes(fp)
    case Floor(pkg, version) => PackageName(pkg) && IsVersion(version)
  }

  function PrintRecord(hash: string -> string, r: Record): string
    requires RecordOk(hash, r)
  {
    match r
    case Pinned(fp, pk) => "key " + Hex(fp) + " " + Hex(pk)
    case Revoked(fp) => "revoked " + Hex(fp)
    case Floor(pkg, version) => "floor " + pkg + " " + version
  }

  lemma PiecesCons(a: string, b: string)
    requires ' ' !in a
    ensures Pieces(a + " " + b, ' ') == [a] + Pieces(b, ' ')
  {
    var s := a + " " + b;
    assert s[..|a|] == a && s[|a| + 1..] == b;
    IndexOfAt(s, ' ', |a|);
  }

  lemma PiecesOne(a: string)
    requires ' ' !in a
    ensures Pieces(a, ' ') == [a]
  {
    IndexOfAt(a, ' ', |a|);
  }

  predicate Visible(s: string) { s != "" && forall i :: 0 <= i < |s| ==> '!' <= s[i] <= '~' }

  lemma VersionVisible(v: string)
    requires IsVersion(v)
    ensures Visible(v)
  {
    hide IsVersion, Rest, Parts, IsEpoch, Visible;
    var x := VersionOf(v);
    if v == Rest(x) && Parts(x, false) {
      RestVisible(x, false);
    } else {
      var e :| IsEpoch(e, x.epoch) && v == e + ":" + Rest(x) && Parts(x, true);
      RestVisible(x, true);
      EpochVisible(e, x.epoch);
      Joined(e, ':', Rest(x));
    }
  }

  lemma VersionOf(v: string) returns (x: Version)
    requires IsVersion(v)
    ensures || (v == Rest(x) && Parts(x, false))
            || exists e :: IsEpoch(e, x.epoch) && v == e + ":" + Rest(x) && Parts(x, true)
  {
    hide Rest, Parts, IsEpoch;
    x := DebVersion.Split(v).value;
    SplitIff(v, x);
  }

  lemma EpochVisible(e: string, n: nat)
    requires IsEpoch(e, n)
    ensures Visible(e)
  {
    hide Value;
  }

  lemma RestVisible(x: Version, colon: bool)
    requires Parts(x, colon)
    ensures Visible(Rest(x))
  {
    assert forall i :: 0 <= i < |x.upstream| ==> UpstreamChar(x.upstream[i], x.revision != "", colon);
    assert forall i :: 0 <= i < |x.revision| ==> RevisionChar(x.revision[i]);
  }

  lemma Joined(a: string, c: char, b: string)
    requires Visible(a) && '!' <= c <= '~' && Visible(b)
    ensures Visible(a + [c] + b)
  {
  }

  lemma HexVisible(s: string)
    requires IsBytes(s) && s != ""
    ensures Visible(Hex(s)) && ' ' !in Hex(s)
  {
    hide Hex;
  }

  /** The tokens of a written record. */
  function Tokens(hash: string -> string, r: Record): seq<string>
    requires RecordOk(hash, r)
  {
    match r
    case Pinned(fp, pk) => ["key", Hex(fp), Hex(pk)]
    case Revoked(fp) => ["revoked", Hex(fp)]
    case Floor(pkg, version) => ["floor", pkg, version]
  }

  lemma TokensOf(hash: string -> string, r: Record)
    requires RecordOk(hash, r)
    ensures Pieces(PrintRecord(hash, r), ' ') == Tokens(hash, r)
    ensures forall i :: 0 <= i < |Tokens(hash, r)| ==> Visible(Tokens(hash, r)[i])
  {
    hide Hex, Pieces, IsVersion, Visible, PackageName;
    Tags();
    match r
    case Pinned(fp, pk) =>
      HexVisible(fp);
      HexVisible(pk);
      Word("key");
      PiecesOne(Hex(pk));
      PiecesCons(Hex(fp), Hex(pk));
      PiecesCons("key", Hex(fp) + " " + Hex(pk));
      assert "key " + Hex(fp) + " " + Hex(pk) == "key" + " " + (Hex(fp) + " " + Hex(pk));
    case Revoked(fp) =>
      HexVisible(fp);
      Word("revoked");
      PiecesOne(Hex(fp));
      PiecesCons("revoked", Hex(fp));
      assert "revoked " + Hex(fp) == "revoked" + " " + Hex(fp);
    case Floor(pkg, version) =>
      VersionVisible(version);
      Word(version);
      PackageVisible(pkg);
      Word("floor");
      PiecesOne(version);
      PiecesCons(pkg, version);
      PiecesCons("floor", pkg + " " + version);
      assert "floor " + pkg + " " + version == "floor" + " " + (pkg + " " + version);
  }

  lemma Word(s: string)
    requires Visible(s)
    ensures ' ' !in s && '\n' !in s
  {
  }

  lemma Tags()
    ensures Visible("key") && Visible("revoked") && Visible("floor")
  {
  }

  lemma PackageVisible(s: string)
    requires PackageName(s)
    ensures Visible(s) && ' ' !in s
  {
  }

  lemma PackageIs(s: string)
    ensures PackageOk(s) <==> PackageName(s)
  {
  }

  lemma TokensRead(hash: string -> string, r: Record)
    requires RecordOk(hash, r)
    ensures ParseTokens(hash, Tokens(hash, r)) == Some(r)
  {
    hide Hex, Unhex, LowerHex, IsVersion, Pieces, PackageName, PackageOk, Visible, PrintRecord;
    TokensFull(hash, r);
    match r
    case Pinned(fp, pk) =>
      UnhexHex(fp);
      UnhexHex(pk);
    case Revoked(fp) =>
      UnhexHex(fp);
    case Floor(pkg, version) =>
      PackageIs(pkg);
  }

  lemma TokensFull(hash: string -> string, r: Record)
    requires RecordOk(hash, r)
    ensures forall i :: 0 <= i < |Tokens(hash, r)| ==> Tokens(hash, r)[i] != ""
  {
    hide Hex, IsVersion, Pieces, PackageName, PrintRecord, Tokens;
    TokensOf(hash, r);
  }

  lemma ReadIsOk(hash: string -> string, t: seq<string>)
    requires t != [] && ParseTokens(hash, t).Some?
    ensures RecordOk(hash, ParseTokens(hash, t).value)
  {
    hide Unhex, LowerHex, IsVersion;
    if t[0] == "key" {
      UnhexBytes(t[1], HASH_LEN);
      UnhexBytes(t[2], PK_LEN);
    } else if t[0] == "revoked" {
      UnhexBytes(t[1], HASH_LEN);
    } else {
      PackageIs(t[1]);
    }
  }

  /** A line is read as a record exactly when it is that record written out. */
  lemma LineIff(hash: string -> string, line: string, r: Record)
    ensures ParseLine(hash, line) == Some(r) <==> RecordOk(hash, r) && line == PrintRecord(hash, r)
  {
    hide ParseTokens, PrintRecord, RecordOk, Pieces, Tokens;
    if RecordOk(hash, r) {
      TokensOf(hash, r);
      TokensRead(hash, r);
      PrintedNonempty(hash, r);
      assert ParseLine(hash, PrintRecord(hash, r)) == Some(r);
    }
    if ParseLine(hash, line) == Some(r) {
      ReadIsOk(hash, Pieces(line, ' '));
      LineInjective(hash, line, PrintRecord(hash, r));
    }
  }

  lemma PrintedNonempty(hash: string -> string, r: Record)
    requires RecordOk(hash, r)
    ensures PrintRecord(hash, r) != ""
  {
    hide Hex;
  }

  // ── bodies ──────────────────────────────────────────────────────────

  /** In the order of bytes: at the first difference, or by being the
      beginning of the other. */
  predicate Earlier(a: string, b: string) {
    exists k :: 0 <= k <= |a| && k < |b| && a[..k] == b[..k] && (k == |a| || a[k] < b[k])
  }

  lemma {:induction false} LessIs(a: string, b: string)
    ensures Less(a, b) <==> Earlier(a, b)
    decreases |a|
  {
    if a != "" && b != "" && a[0] == b[0] {
      LessIs(a[1..], b[1..]);
      if Earlier(a[1..], b[1..]) { EarlierCons(a, b); }
      if Earlier(a, b) { EarlierTail(a, b); }
    } else if Less(a, b) {
      assert a[..0] == b[..0];
    }
  }

  lemma EarlierCons(a: string, b: string)
    requires a != "" && b != "" && a[0] == b[0] && Earlier(a[1..], b[1..])
    ensures Earlier(a, b)
  {
    var k :| 0 <= k <= |a| - 1 && k < |b| - 1 && a[1..][..k] == b[1..][..k] && (k == |a| - 1 || a[1..][k] < b[1..][k]);
    assert a[..k + 1] == [a[0]] + a[1..][..k] && b[..k + 1] == [b[0]] + b[1..][..k];
  }

  lemma EarlierTail(a: string, b: string)
    requires a != "" && b != "" && a[0] == b[0] && Earlier(a, b)
    ensures Earlier(a[1..], b[1..])
  {
    var k :| 0 <= k <= |a| && k < |b| && a[..k] == b[..k] && (k == |a| || a[k] < b[k]);
    assert k > 0;
    assert a[1..][..k - 1] == a[..k][1..] && b[1..][..k - 1] == b[..k][1..];
  }

  /** One key per fingerprint, one floor per package, no fingerprint both
      pinned and revoked, and at least one key. */
  predicate Lawful(rs: seq<Record>) {
    && (forall i, j :: 0 <= i < j < |rs| && rs[i].Pinned? && rs[j].Pinned? ==> rs[i].fp != rs[j].fp)
    && (forall i, j :: 0 <= i < j < |rs| && rs[i].Floor? && rs[j].Floor? ==> rs[i].pkg != rs[j].pkg)
    && (forall i, j :: 0 <= i < |rs| && 0 <= j < |rs| && rs[i].Pinned? && rs[j].Revoked? ==> rs[i].fp != rs[j].fp)
    && exists i :: 0 <= i < |rs| && rs[i].Pinned?
  }

  lemma LawfulIs(rs: seq<Record>)
    ensures Lawful(rs) <==> StateOk(rs)
  {
    if StateOk(rs) {
      forall i, j | 0 <= i < |rs| && 0 <= j < |rs| && rs[i].Pinned? && rs[j].Revoked? ensures rs[i].fp != rs[j].fp {
        assert rs[j] == Revoked(rs[j].fp);
      }
    }
    if Lawful(rs) {
      forall i | 0 <= i < |rs| && rs[i].Pinned? ensures !IsRevoked(rs, rs[i].fp) {}
    }
  }

  predicate AllOk(hash: string -> string, rs: seq<Record>) {
    forall i :: 0 <= i < |rs| ==> RecordOk(hash, rs[i])
  }

  function Lines(hash: string -> string, rs: seq<Record>): (ls: seq<string>)
    requires AllOk(hash, rs)
    ensures |ls| == |rs| && forall i :: 0 <= i < |ls| ==> ls[i] == PrintRecord(hash, rs[i])
  {
    seq(|rs|, i requires 0 <= i < |rs| => PrintRecord(hash, rs[i]))
  }

  /** Every line, ended. */
  function Ended(ls: seq<string>): string {
    if ls == [] then "" else ls[0] + "\n" + Ended(ls[1..])
  }

  lemma {:induction false} EndedIsGlue(ls: seq<string>)
    requires ls != []
    ensures Ended(ls) == Glue(ls, '\n') + "\n"
    decreases |ls|
  {
    if |ls| == 1 {
      assert ls[1..] == [];
    } else {
      EndedIsGlue(ls[1..]);
      assert ls[0] + ['\n'] + Glue(ls[1..], '\n') + "\n" == ls[0] + "\n" + (Glue(ls[1..], '\n') + "\n");
    }
  }

  lemma {:induction false} PiecesGlue(ls: seq<string>)
    requires ls != [] && forall i :: 0 <= i < |ls| ==> '\n' !in ls[i]
    ensures Pieces(Glue(ls, '\n'), '\n') == ls
    decreases |ls|
  {
    hide Pieces;
    if |ls| == 1 {
      IndexOfAt(ls[0], '\n', |ls[0]|);
      PiecesAt(ls[0], '\n');
    } else {
      var s := Glue(ls, '\n');
      PiecesGlue(ls[1..]);
      assert s[..|ls[0]|] == ls[0] && s[|ls[0]| + 1..] == Glue(ls[1..], '\n');
      IndexOfAt(s, '\n', |ls[0]|);
      PiecesAt(s, '\n');
      assert ls == [ls[0]] + ls[1..];
    }
  }

  predicate Clean(s: string) { forall i :: 0 <= i < |s| ==> ' ' <= s[i] <= '~' }

  lemma PrintedClean(hash: string -> string, r: Record)
    requires RecordOk(hash, r)
    ensures Clean(PrintRecord(hash, r)) && '\n' !in PrintRecord(hash, r)
  {
    hide Hex, Pieces, IsVersion, PackageName, Visible, Clean;
    TokensOf(hash, r);
    var t := Tokens(hash, r);
    PrintedTokens(hash, r);
    Spaced(t[0], t[1]);
    if r.Revoked? {
      assert t[0] + " " + t[1] + "" == t[0] + " " + t[1];
    } else {
      Spaced(t[0] + " " + t[1], t[2]);
      assert t[0] + " " + t[1] + (" " + t[2]) == t[0] + " " + t[1] + " " + t[2];
    }
    NoNewline(PrintRecord(hash, r));
  }

  lemma PrintedTokens(hash: string -> string, r: Record)
    requires RecordOk(hash, r)
    ensures var t := Tokens(hash, r);
            PrintRecord(hash, r) == t[0] + " " + t[1] + (if r.Revoked? then "" else " " + t[2])
  {
    hide Hex, IsVersion, PackageName;
    assert "key " == "key" + " " && "revoked " == "revoked" + " " && "floor " == "floor" + " ";
  }

  lemma Spaced(a: string, b: string)
    requires (Visible(a) || Clean(a)) && Visible(b)
    ensures Clean(a + " " + b)
  {
  }

  lemma NoNewline(s: string)
    requires Clean(s)
    ensures '\n' !in s
  {
  }

  lemma {:induction false} EndedText(ls: seq<string>)
    requires forall i :: 0 <= i < |ls| ==> Clean(ls[i])
    ensures forall k :: 0 <= k < |Ended(ls)| ==> Printable(Ended(ls)[k])
    ensures ls != [] ==> Ended(ls) != "" && Ended(ls)[|Ended(ls)| - 1] == '\n'
    decreases |ls|
  {
    if ls != [] {
      EndedText(ls[1..]);
      if |ls| == 1 { assert ls[1..] == []; }
      var s, rest := Ended(ls), Ended(ls[1..]);
      forall k | 0 <= k < |s| ensures Printable(s[k]) {
        if k < |ls[0]| {
          assert s[k] == ls[0][k];
        } else if k > |ls[0]| {
          assert s[k] == rest[k - |ls[0]| - 1];
        }
      }
    }
  }

  /** The lines stand in the order of bytes. */
  predicate Ascending(ls: seq<string>) { forall i, j :: 0 <= i < j < |ls| ==> Earlier(ls[i], ls[j]) }

  lemma AscendingIs(ls: seq<string>)
    ensures Ascending(ls) <==> Sorted(ls)
  {
    hide Earlier, Less;
    forall i, j | 0 <= i < |ls| && 0 <= j < |ls|
      ensures Less(ls[i], ls[j]) <==> Earlier(ls[i], ls[j])
    {
      LessIs(ls[i], ls[j]);
    }
    if Sorted(ls) {
      forall i, j | 0 <= i < j < |ls| ensures Earlier(ls[i], ls[j]) { SortedPairs(ls, i, j); }
    }
    if Ascending(ls) {
      forall i, j | 0 <= i < j < |ls| ensures ls[i] != ls[j] && !Less(ls[j], ls[i]) { LessTotal(ls[i], ls[j]); }
    }
  }

  /** The body is the state written out, its lines in the order of bytes, in at
      most 65536 of them. */
  predicate BodyIs(hash: string -> string, body: string, rs: seq<Record>) {
    && AllOk(hash, rs) && Lawful(rs) && Ascending(Lines(hash, rs))
    && body == Ended(Lines(hash, rs)) && |body| <= 65536
  }

  lemma WrittenReads(hash: string -> string, body: string, rs: seq<Record>)
    requires BodyIs(hash, body, rs)
    ensures ParseBody(hash, body) == Some(rs)
  {
    hide ParseLine, PrintRecord, RecordOk, Lawful, StateOk, Sorted, Ascending, Ended, Glue, Pieces, Clean;
    var ls := Lines(hash, rs);
    LawfulIs(rs);
    LawfulNonempty(rs);
    AscendingIs(ls);
    forall i | 0 <= i < |ls| ensures ParseLine(hash, ls[i]) == Some(rs[i]) && Clean(ls[i]) && '\n' !in ls[i] {
      assert RecordOk(hash, rs[i]);
      LineIff(hash, ls[i], rs[i]);
      PrintedClean(hash, rs[i]);
    }
    EndedText(ls);
    EndedIsGlue(ls);
    PiecesGlue(ls);
    assert body[..|body| - 1] == Glue(ls, '\n');
    assert Records(hash, ls) == rs;
  }

  lemma LawfulNonempty(rs: seq<Record>)
    requires Lawful(rs)
    ensures rs != []
  {
  }

  lemma ReadIsWritten(hash: string -> string, body: string)
    requires ParseBody(hash, body).Some?
    ensures BodyIs(hash, body, ParseBody(hash, body).value)
  {
    hide ParseLine, PrintRecord, RecordOk, Lawful, StateOk, Sorted, Ascending, Ended, Glue, Pieces;
    var ls, rs := TrustBody.LinesOf(body), ParseBody(hash, body).value;
    LawfulIs(rs);
    AscendingIs(ls);
    forall i | 0 <= i < |rs| ensures RecordOk(hash, rs[i]) && ls[i] == PrintRecord(hash, rs[i]) {
      LineIff(hash, ls[i], rs[i]);
    }
    assert ls == Lines(hash, rs);
    GluePieces(body[..|body| - 1], '\n');
    EndedIsGlue(ls);
    assert body == body[..|body| - 1] + "\n";
  }

  /** A body is accepted exactly when it is a lawful state written out. */
  lemma BodyIff(hash: string -> string, body: string, rs: seq<Record>)
    ensures ParseBody(hash, body) == Some(rs) <==> BodyIs(hash, body, rs)
  {
    hide ParseBody, BodyIs;
    if BodyIs(hash, body, rs) { WrittenReads(hash, body, rs); }
    if ParseBody(hash, body) == Some(rs) { ReadIsWritten(hash, body); }
  }

  // ── the file after another ──────────────────────────────────────────

  /** The package has a floor w, and w is v or later. */
  predicate Raised(after: seq<Record>, pkg: string, v: string, w: string) {
    && Floor(pkg, w) in after && IsVersion(v) && IsVersion(w)
    && Order(DebVersion.Split(w).value, DebVersion.Split(v).value) >= 0
  }

  ghost predicate StillIn(r: Record, after: seq<Record>) {
    match r
    case Pinned(_, _) => true
    case Revoked(fp) => Revoked(fp) in after
    case Floor(pkg, v) => exists w :: Raised(after, pkg, v, w)
  }

  /** Every revocation is still there, and every floor at the same version or a
      later one; keys may go. */
  ghost predicate NothingDropped(before: seq<Record>, after: seq<Record>) {
    forall r :: r in before ==> StillIn(r, after)
  }

  lemma OneFloor(rs: seq<Record>, pkg: string, w: string)
    requires Lawful(rs) && Floor(pkg, w) in rs
    ensures FloorFor(rs, pkg) == Some(w)
  {
    var i :| 0 <= i < |rs| && rs[i] == Floor(pkg, w);
    var f := FloorFor(rs, pkg);
    assert f.Some?;
    var j :| 0 <= j < |rs| && rs[j] == Floor(pkg, f.value);
  }

  lemma OneKey(rs: seq<Record>, fp: string, pk: string)
    requires Lawful(rs) && Pinned(fp, pk) in rs
    ensures KeyFor(rs, fp) == Some(pk)
  {
    var i :| 0 <= i < |rs| && rs[i] == Pinned(fp, pk);
    var k := KeyFor(rs, fp);
    assert k.Some?;
    var j :| 0 <= j < |rs| && rs[j] == Pinned(fp, k.value);
  }

  lemma KeptIs(r: Record, after: seq<Record>)
    requires Lawful(after)
    ensures Keeps(r, after) <==> StillIn(r, after)
  {
    hide Order, IsVersion, Lawful;
    if r.Floor? {
      if Keeps(r, after) { assert Raised(after, r.pkg, r.version, FloorFor(after, r.pkg).value); }
      if w :| Raised(after, r.pkg, r.version, w) { OneFloor(after, r.pkg, w); }
    }
  }

  lemma DroppedIs(before: seq<Record>, after: seq<Record>)
    requires Lawful(after)
    ensures KeepsAll(before, after) <==> NothingDropped(before, after)
  {
    hide Keeps, StillIn, Lawful;
    forall r ensures Keeps(r, after) <==> StillIn(r, after) { KeptIs(r, after); }
  }

  /** A file is the next of a directory exactly when both can be read, its
      serial is larger, its signer's key is pinned in the file before and not
      revoked there and signed the message over that file's digest, and nothing
      is dropped. */
  lemma NextIff(c: Crypto, prev: string, f: string)
    ensures AcceptsNext(c, prev, f) <==>
      && Open(c, prev).Some? && Open(c, f).Some?
      && var p, o := Open(c, prev).value, Open(c, f).value;
         && o.file.serial > p.file.serial && Revoked(o.file.signer) !in p.records
         && NothingDropped(p.records, o.records)
         && exists pk :: Pinned(o.file.signer, pk) in p.records
              && c.verify(o.file.sig, Message(c.hash, o.file.serial, c.hash(prev), o.file.signer, o.file.body), pk)
  {
    hide ParseLayout, ParseBody, Message, NothingDropped, KeepsAll;
    if Open(c, prev).Some? && Open(c, f).Some? {
      var p, o := Open(c, prev).value, Open(c, f).value;
      OpenLawful(c, prev);
      OpenLawful(c, f);
      DroppedIs(p.records, o.records);
      forall pk | Pinned(o.file.signer, pk) in p.records ensures KeyFor(p.records, o.file.signer) == Some(pk) {
        OneKey(p.records, o.file.signer, pk);
      }
    }
  }

  /** A file is the first of a directory exactly when it can be read, its
      serial is 1, and a key it pins itself signed the message over 64 zero
      bytes. */
  lemma FirstIff(c: Crypto, f: string)
    ensures AcceptsFirst(c, f) <==>
      && Open(c, f).Some?
      && var o := Open(c, f).value;
         && o.file.serial == 1
         && exists pk :: Pinned(o.file.signer, pk) in o.records
              && c.verify(o.file.sig, Message(c.hash, 1, Zeros(64), o.file.signer, o.file.body), pk)
  {
    hide ParseLayout, ParseBody, Message;
    BlankZeros(64);
    if Open(c, f).Some? {
      var o := Open(c, f).value;
      OpenLawful(c, f);
      forall pk | Pinned(o.file.signer, pk) in o.records ensures KeyFor(o.records, o.file.signer) == Some(pk) {
        OneKey(o.records, o.file.signer, pk);
      }
    }
  }

  function Zeros(n: nat): string { seq(n, i => '\0') }

  lemma {:induction false} BlankZeros(n: nat)
    ensures Blank(n) == Zeros(n)
  {
    if n > 0 { BlankZeros(n - 1); }
  }

  lemma OpenLawful(c: Crypto, f: string)
    requires Open(c, f).Some?
    ensures Lawful(Open(c, f).value.records)
  {
    hide ParseLayout, LinesOk, Sorted, TrustBody.LinesOf, TextOk, StateOk, Lawful;
    LawfulIs(Open(c, f).value.records);
  }
}
