/** The canonical text of a trust state: sorted lines, one per record. An
    accepted text is determined by the set of its records. */
module TrustBody {
  import opened CStrings
  import opened DebVersion
  import opened Options

  const BODY_MAX := 65536
  const HASH_LEN := 64
  const PK_LEN := 2592

  // ── bytewise order of lines ─────────────────────────────────────────

  predicate Less(a: string, b: string)
    decreases |a|
  {
    b != "" && (a == "" || a[0] < b[0] || (a[0] == b[0] && Less(a[1..], b[1..])))
  }

  lemma {:induction false} LessTotal(a: string, b: string)
    ensures a == b || Less(a, b) || Less(b, a)
    ensures !(Less(a, b) && Less(b, a)) && !Less(a, a)
    decreases |a|
  {
    if a != "" && b != "" && a[0] == b[0] {
      LessTotal(a[1..], b[1..]);
      assert a == [a[0]] + a[1..] && b == [b[0]] + b[1..];
    }
    if a != "" { LessTotal(a[1..], a[1..]); }
  }

  lemma {:induction false} LessChains(a: string, b: string, c: string)
    requires Less(a, b) && Less(b, c)
    ensures Less(a, c)
    decreases |a|
  {
    if a != "" && a[0] == b[0] == c[0] { LessChains(a[1..], b[1..], c[1..]); }
  }

  predicate Distinct(ls: seq<string>) { forall i, j :: 0 <= i < j < |ls| ==> ls[i] != ls[j] }

  /** No line twice, and no line before its predecessor. */
  predicate Sorted(ls: seq<string>) {
    Distinct(ls) && forall i :: 0 < i < |ls| ==> !Less(ls[i], ls[i - 1])
  }

  lemma {:induction false} SortedPairs(ls: seq<string>, i: nat, j: nat)
    requires Sorted(ls) && i < j < |ls|
    ensures Less(ls[i], ls[j])
    decreases j
  {
    LessTotal(ls[j - 1], ls[j]);
    if i < j - 1 {
      SortedPairs(ls, i, j - 1);
      LessChains(ls[i], ls[j - 1], ls[j]);
    }
  }

  ghost predicate SameLines(a: seq<string>, b: seq<string>) { forall x :: x in a <==> x in b }

  lemma SameHead(a: seq<string>, b: seq<string>)
    requires Sorted(a) && Sorted(b) && SameLines(a, b) && a != []
    ensures b != [] && a[0] == b[0]
  {
    assert a[0] in b;
    var j :| 0 <= j < |b| && b[j] == a[0];
    assert b[0] in a;
    var k :| 0 <= k < |a| && a[k] == b[0];
    if j > 0 { SortedPairs(b, 0, j); }
    if k > 0 { SortedPairs(a, 0, k); }
    LessTotal(a[0], b[0]);
  }

  /** Sorting leaves one way to list a set of lines. */
  lemma {:induction false} SortedUnique(a: seq<string>, b: seq<string>)
    requires Sorted(a) && Sorted(b) && SameLines(a, b)
    ensures a == b
  {
    if a != [] {
      SameHead(a, b);
      assert a == [a[0]] + a[1..] && b == [b[0]] + b[1..];
      assert forall x :: x in a[1..] <==> x in a && x != a[0];
      assert forall x :: x in b[1..] <==> x in b && x != b[0];
      SortedUnique(a[1..], b[1..]);
    } else if b != [] {
      SameHead(b, a);
    }
  }

  // ── hexadecimal ─────────────────────────────────────────────────────

  predicate IsHex(c: char) { IsDigit(c) || 'a' <= c <= 'f' }

  predicate LowerHex(s: string, n: nat) { |s| == 2 * n && forall i :: 0 <= i < |s| ==> IsHex(s[i]) }

  function Nibble(c: char): (r: nat)
    requires IsHex(c)
    ensures r < 16
  {
    if IsDigit(c) then DigitOf(c) else c as int - 'a' as int + 10
  }

  function Unhex(s: string, n: nat): (r: string)
    requires LowerHex(s, n)
    ensures |r| == n
  {
    if n == 0 then "" else
      Unhex(s[..2 * (n - 1)], n - 1) + [(Nibble(s[2 * n - 2]) * 16 + Nibble(s[2 * n - 1])) as char]
  }

  lemma NibbleInjective(a: char, b: char, c: char, d: char)
    requires IsHex(a) && IsHex(b) && IsHex(c) && IsHex(d)
    requires Nibble(a) * 16 + Nibble(b) == Nibble(c) * 16 + Nibble(d)
    ensures a == c && b == d
  {
  }

  lemma {:induction false} UnhexInjective(a: string, b: string, n: nat)
    requires LowerHex(a, n) && LowerHex(b, n) && Unhex(a, n) == Unhex(b, n)
    ensures a == b
  {
    if n > 0 {
      var m := 2 * (n - 1);
      var x, y := Unhex(a, n), Unhex(b, n);
      assert x[..n - 1] == Unhex(a[..m], n - 1) && y[..n - 1] == Unhex(b[..m], n - 1);
      UnhexInjective(a[..m], b[..m], n - 1);
      assert x[n - 1] == y[n - 1];
      NibbleInjective(a[m], a[m + 1], b[m], b[m + 1]);
      assert a == a[..m] + [a[m], a[m + 1]] && b == b[..m] + [b[m], b[m + 1]];
    }
  }

  // ── records ─────────────────────────────────────────────────────────

  datatype Record = Pinned(fp: string, pk: string) | Revoked(fp: string) | Floor(pkg: string, version: string)

  predicate PackageOk(s: string) {
    && |s| >= 2 && ('a' <= s[0] <= 'z' || IsDigit(s[0]))
    && forall i :: 0 <= i < |s| ==> 'a' <= s[i] <= 'z' || IsDigit(s[i]) || s[i] in "+-."
  }

  /** One line, by its space-separated tokens; `hash` is the fingerprint of a
      public key. */
  function ParseTokens(hash: string -> string, t: seq<string>): Option<Record>
    requires t != []
  {
    if exists i :: 0 <= i < |t| && t[i] == "" then None
    else if t[0] == "key" then
      if |t| != 3 || !LowerHex(t[1], HASH_LEN) || !LowerHex(t[2], PK_LEN) then None else
        var r := Pinned(Unhex(t[1], HASH_LEN), Unhex(t[2], PK_LEN));
        if hash(r.pk) == r.fp then Some(r) else None
    else if t[0] == "revoked" then
      if |t| != 2 || !LowerHex(t[1], HASH_LEN) then None else Some(Revoked(Unhex(t[1], HASH_LEN)))
    else if t[0] == "floor" then
      if |t| != 3 || !PackageOk(t[1]) || !IsVersion(t[2]) then None else Some(Floor(t[1], t[2]))
    else None
  }

  function ParseLine(hash: string -> string, line: string): Option<Record> {
    if line == "" then None else ParseTokens(hash, Pieces(line, ' '))
  }

  /** Different lines are different records. */
  lemma LineInjective(hash: string -> string, a: string, b: string)
    requires ParseLine(hash, a).Some? && ParseLine(hash, a) == ParseLine(hash, b)
    ensures a == b
  {
    hide Unhex, LowerHex, IsVersion, PackageOk;
    var s, t := Pieces(a, ' '), Pieces(b, ' ');
    TokensInjective(hash, s, t);
    GluePieces(a, ' ');
    GluePieces(b, ' ');
  }

  lemma TokensInjective(hash: string -> string, s: seq<string>, t: seq<string>)
    requires s != [] && t != [] && ParseTokens(hash, s).Some? && ParseTokens(hash, s) == ParseTokens(hash, t)
    ensures s == t
  {
    hide Unhex, IsVersion, PackageOk;
    if s[0] == "floor" {
      assert s == [s[0], s[1], s[2]] && t == [t[0], t[1], t[2]];
    } else {
      UnhexInjective(s[1], t[1], HASH_LEN);
      if s[0] == "key" {
        UnhexInjective(s[2], t[2], PK_LEN);
        assert s == [s[0], s[1], s[2]] && t == [t[0], t[1], t[2]];
      } else {
        assert s == [s[0], s[1]] && t == [t[0], t[1]];
      }
    }
  }

  // ── bodies ──────────────────────────────────────────────────────────

  predicate Printable(c: char) { c == '\n' || ' ' <= c <= '~' }

  predicate TextOk(body: string) {
    && 0 < |body| <= BODY_MAX && body[|body| - 1] == '\n'
    && forall i :: 0 <= i < |body| ==> Printable(body[i])
  }

  function LinesOf(body: string): seq<string>
    requires TextOk(body)
  {
    Pieces(body[..|body| - 1], '\n')
  }

  predicate LinesOk(hash: string -> string, ls: seq<string>) {
    forall i :: 0 <= i < |ls| ==> ParseLine(hash, ls[i]).Some?
  }

  function Records(hash: string -> string, ls: seq<string>): (r: seq<Record>)
    requires LinesOk(hash, ls)
    ensures |r| == |ls|
    ensures forall i :: 0 <= i < |ls| ==> Some(r[i]) == ParseLine(hash, ls[i])
  {
    seq(|ls|, i requires 0 <= i < |ls| => ParseLine(hash, ls[i]).value)
  }

  /** The public key pinned for a fingerprint. */
  function KeyFor(rs: seq<Record>, fp: string): (r: Option<string>)
    ensures r.Some? ==> Pinned(fp, r.value) in rs
    ensures r.None? ==> forall i :: 0 <= i < |rs| ==> !(rs[i].Pinned? && rs[i].fp == fp)
  {
    if rs == [] then None
    else if rs[0].Pinned? && rs[0].fp == fp then Some(rs[0].pk)
    else KeyFor(rs[1..], fp)
  }

  predicate IsRevoked(rs: seq<Record>, fp: string) { Revoked(fp) in rs }

  function FloorFor(rs: seq<Record>, pkg: string): (r: Option<string>)
    ensures r.Some? ==> Floor(pkg, r.value) in rs
    ensures r.None? ==> forall i :: 0 <= i < |rs| ==> !(rs[i].Floor? && rs[i].pkg == pkg)
  {
    if rs == [] then None
    else if rs[0].Floor? && rs[0].pkg == pkg then Some(rs[0].version)
    else FloorFor(rs[1..], pkg)
  }

  /** One key per fingerprint, one floor per package, no key both pinned and
      revoked, and at least one key. */
  predicate StateOk(rs: seq<Record>) {
    && (forall i, j :: 0 <= i < j < |rs| ==>
          && (rs[i].Pinned? && rs[j].Pinned? ==> rs[i].fp != rs[j].fp)
          && (rs[i].Floor? && rs[j].Floor? ==> rs[i].pkg != rs[j].pkg))
    && (forall i :: 0 <= i < |rs| && rs[i].Pinned? ==> !IsRevoked(rs, rs[i].fp))
    && exists i :: 0 <= i < |rs| && rs[i].Pinned?
  }

  function ParseBody(hash: string -> string, body: string): Option<seq<Record>> {
    if !TextOk(body) then None else
      var ls := LinesOf(body);
      if !LinesOk(hash, ls) || !Sorted(ls) then None else
        var rs := Records(hash, ls);
        if StateOk(rs) then Some(rs) else None
  }

  ghost predicate SameRecords(a: seq<Record>, b: seq<Record>) { forall r :: r in a <==> r in b }

  lemma SameSwap(a: seq<Record>, b: seq<Record>)
    requires SameRecords(a, b)
    ensures SameRecords(b, a)
  {
  }

  lemma LinesWithin(hash: string -> string, a: seq<string>, b: seq<string>, x: string)
    requires LinesOk(hash, a) && LinesOk(hash, b) && x in a
    requires SameRecords(Records(hash, a), Records(hash, b))
    ensures x in b
  {
    hide ParseLine;
    var i :| 0 <= i < |a| && a[i] == x;
    var r := Records(hash, a)[i];
    assert r in Records(hash, b);
    var j :| 0 <= j < |b| && Records(hash, b)[j] == r;
    LineInjective(hash, a[i], b[j]);
  }

  lemma SameText(a: string, b: string)
    requires TextOk(a) && TextOk(b) && LinesOf(a) == LinesOf(b)
    ensures a == b
  {
    hide Pieces;
    GluePieces(a[..|a| - 1], '\n');
    GluePieces(b[..|b| - 1], '\n');
    assert a == a[..|a| - 1] + "\n" && b == b[..|b| - 1] + "\n";
  }

  /** The text is canonical: two accepted bodies with the same records are
      the same bytes, so a state has one digest. */
  lemma BodyCanonical(hash: string -> string, a: string, b: string)
    requires ParseBody(hash, a).Some? && ParseBody(hash, b).Some?
    requires SameRecords(ParseBody(hash, a).value, ParseBody(hash, b).value)
    ensures a == b
  {
    hide ParseLine, StateOk, Sorted, LinesOf, LinesOk, Records, SameRecords, TextOk;
    var x, y := LinesOf(a), LinesOf(b);
    SameSwap(Records(hash, x), Records(hash, y));
    forall l ensures l in x <==> l in y {
      if l in x { LinesWithin(hash, x, y, l); }
      if l in y { LinesWithin(hash, y, x, l); }
    }
    SortedUnique(x, y);
    SameText(a, b);
  }
}
