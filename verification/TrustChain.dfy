/** The chain of trust files a directory accepts: serials grow, revocations
    and floors stay, a revoked key signs nothing more, and the last file
    fixes every file before it. */
module TrustChain {
  import opened DebVersion
  import opened Options
  import opened TrustBody
  import opened TrustFile

  /** The digest, and the check of a signature on a message by a public key. */
  datatype Crypto = Crypto(hash: string -> string, verify: (string, string, string) -> bool)

  ghost predicate DigestOk(c: Crypto) { forall x: string :: |c.hash(x)| == HASH_LEN }

  function Blank(n: nat): (r: string)
    ensures |r| == n
  {
    if n == 0 then "" else Blank(n - 1) + "\0"
  }

  const ZEROS := Blank(HASH_LEN)

  datatype Opened = Opened(file: File, records: seq<Record>)

  /** Layout and body of a file. */
  function Open(c: Crypto, f: string): Option<Opened> {
    var t := ParseLayout(f);
    if t.None? then None else
      var rs := ParseBody(c.hash, t.value.body);
      if rs.None? then None else Some(Opened(t.value, rs.value))
  }

  function MessageOf(c: Crypto, t: File, prev: string): string {
    Message(c.hash, t.serial, prev, t.signer, t.body)
  }

  predicate SignedBy(c: Crypto, t: File, prev: string, key: Option<string>) {
    key.Some? && c.verify(t.sig, MessageOf(c, t, prev), key.value)
  }

  // ── one file after another ──────────────────────────────────────────

  /** v is a version not below the version w. */
  predicate AtLeast(v: string, w: string) {
    IsVersion(v) && IsVersion(w) && Order(Split(v).value, Split(w).value) >= 0
  }

  predicate Keeps(r: Record, rs: seq<Record>) {
    match r
    case Pinned(_, _) => true
    case Revoked(fp) => IsRevoked(rs, fp)
    case Floor(pkg, version) => FloorFor(rs, pkg).Some? && AtLeast(FloorFor(rs, pkg).value, version)
  }

  predicate KeepsAll(before: seq<Record>, after: seq<Record>) {
    forall i :: 0 <= i < |before| ==> Keeps(before[i], after)
  }

  /** A file the one before it admits. */
  predicate Succeeds(p: Opened, o: Opened) {
    && o.file.serial > p.file.serial && !IsRevoked(p.records, o.file.signer)
    && KeyFor(p.records, o.file.signer).Some? && KeepsAll(p.records, o.records)
  }

  predicate AcceptsNext(c: Crypto, prev: string, f: string) {
    && Open(c, prev).Some? && Open(c, f).Some?
    && var p, o := Open(c, prev).value, Open(c, f).value;
       Succeeds(p, o) && SignedBy(c, o.file, c.hash(prev), KeyFor(p.records, o.file.signer))
  }

  /** The start of a chain: serial 1, signed by a key of its own body over no
      previous file. */
  predicate AcceptsFirst(c: Crypto, f: string) {
    && Open(c, f).Some?
    && var o := Open(c, f).value;
       o.file.serial == 1 && SignedBy(c, o.file, ZEROS, KeyFor(o.records, o.file.signer))
  }

  predicate Accepts(c: Crypto, dir: Option<string>, f: string) {
    if dir.Some? then AcceptsNext(c, dir.value, f) else AcceptsFirst(c, f)
  }

  /** The file stored when the i-th comes. */
  function StoredAt(chain: seq<string>, i: nat): Option<string>
    requires i <= |chain|
  {
    if i == 0 then None else Some(chain[i - 1])
  }

  predicate GoodChain(c: Crypto, chain: seq<string>) {
    forall i :: 0 <= i < |chain| ==> Accepts(c, StoredAt(chain, i), chain[i])
  }

  function At(c: Crypto, chain: seq<string>, i: nat): Opened
    requires GoodChain(c, chain) && i < |chain|
  {
    assert Accepts(c, StoredAt(chain, i), chain[i]);
    Open(c, chain[i]).value
  }

  // ── what a chain keeps ──────────────────────────────────────────────

  lemma NextOf(c: Crypto, chain: seq<string>, j: nat)
    requires GoodChain(c, chain) && 0 < j < |chain|
    ensures AcceptsNext(c, chain[j - 1], chain[j])
  {
    hide AcceptsNext, AcceptsFirst;
    assert Accepts(c, StoredAt(chain, j), chain[j]);
  }

  lemma PrefixGood(c: Crypto, chain: seq<string>, j: nat)
    requires GoodChain(c, chain) && j <= |chain|
    ensures GoodChain(c, chain[..j])
  {
    hide Accepts;
    forall i | 0 <= i < j ensures Accepts(c, StoredAt(chain[..j], i), chain[..j][i]) {
      assert Accepts(c, StoredAt(chain, i), chain[i]);
    }
  }

  lemma {:induction false} SerialsGrow(c: Crypto, chain: seq<string>, i: nat, j: nat)
    requires GoodChain(c, chain) && i < j < |chain|
    ensures At(c, chain, i).file.serial < At(c, chain, j).file.serial
    decreases j
  {
    hide Open, KeepsAll, GoodChain, SignedBy;
    NextOf(c, chain, j);
    if i < j - 1 { SerialsGrow(c, chain, i, j - 1); }
  }

  lemma KeepsChain(r: Record, rs: seq<Record>, ts: seq<Record>)
    requires Keeps(r, rs) && KeepsAll(rs, ts)
    ensures Keeps(r, ts)
  {
    hide IsVersion, Order;
    match r
    case Pinned(_, _) =>
    case Revoked(fp) =>
      var i :| 0 <= i < |rs| && rs[i] == Revoked(fp);
      assert Keeps(rs[i], ts);
    case Floor(pkg, version) =>
      var mid := FloorFor(rs, pkg).value;
      var i :| 0 <= i < |rs| && rs[i] == Floor(pkg, mid);
      assert Keeps(rs[i], ts);
      AtLeastChains(FloorFor(ts, pkg).value, mid, version);
  }

  lemma AtLeastChains(u: string, v: string, w: string)
    requires AtLeast(u, v) && AtLeast(v, w)
    ensures AtLeast(u, w)
  {
    hide Order, Split;
    var x, y, z := Split(u).value, Split(v).value, Split(w).value;
    OrderTotal(x, y);
    OrderTotal(y, z);
    OrderTotal(x, z);
    OrderChains(z, y, x);
  }

  lemma KeepsAllChain(rs: seq<Record>, ms: seq<Record>, ts: seq<Record>)
    requires KeepsAll(rs, ms) && KeepsAll(ms, ts)
    ensures KeepsAll(rs, ts)
  {
    hide Keeps;
    forall k | 0 <= k < |rs| ensures Keeps(rs[k], ts) { KeepsChain(rs[k], ms, ts); }
  }

  lemma StepKeeps(c: Crypto, chain: seq<string>, j: nat)
    requires GoodChain(c, chain) && 0 < j < |chain|
    ensures KeepsAll(At(c, chain, j - 1).records, At(c, chain, j).records)
  {
    hide KeepsAll, Open, GoodChain, SignedBy;
    NextOf(c, chain, j);
  }

  /** Along a chain, however long, no revocation is dropped and no floor is
      dropped or lowered. */
  lemma {:induction false} ChainKeeps(c: Crypto, chain: seq<string>, i: nat, j: nat)
    requires GoodChain(c, chain) && i < j < |chain|
    ensures KeepsAll(At(c, chain, i).records, At(c, chain, j).records)
    decreases j
  {
    hide KeepsAll, At, GoodChain;
    StepKeeps(c, chain, j);
    if i < j - 1 {
      ChainKeeps(c, chain, i, j - 1);
      KeepsAllChain(At(c, chain, i).records, At(c, chain, j - 1).records, At(c, chain, j).records);
    }
  }

  /** Once revoked, a key signs no later file and is pinned in none. */
  lemma RevokedForGood(c: Crypto, chain: seq<string>, i: nat, j: nat, fp: string)
    requires GoodChain(c, chain) && i < j < |chain| && IsRevoked(At(c, chain, i).records, fp)
    ensures At(c, chain, j).file.signer != fp && KeyFor(At(c, chain, j).records, fp).None?
  {
    hide Open, KeepsAll, GoodChain, SignedBy, IsRevoked;
    RevokedStays(c, chain, i, j - 1, fp);
    RevokedStays(c, chain, i, j, fp);
    NextOf(c, chain, j);
    RevokedNotPinned(c, chain[j], fp);
  }

  lemma RevokedStays(c: Crypto, chain: seq<string>, i: nat, j: nat, fp: string)
    requires GoodChain(c, chain) && i <= j < |chain| && IsRevoked(At(c, chain, i).records, fp)
    ensures IsRevoked(At(c, chain, j).records, fp)
  {
    hide Open, GoodChain, At;
    if i < j {
      ChainKeeps(c, chain, i, j);
      var rs := At(c, chain, i).records;
      var k :| 0 <= k < |rs| && rs[k] == Revoked(fp);
      assert Keeps(rs[k], At(c, chain, j).records);
    }
  }

  lemma RevokedNotPinned(c: Crypto, f: string, fp: string)
    requires Open(c, f).Some? && IsRevoked(Open(c, f).value.records, fp)
    ensures KeyFor(Open(c, f).value.records, fp).None?
  {
    var rs := Open(c, f).value.records;
    assert StateOk(rs);
  }

  // ── the last file fixes the chain ───────────────────────────────────

  lemma PinnedHash(c: Crypto, f: string, r: Record)
    requires Open(c, f).Some? && r in Open(c, f).value.records && r.Pinned?
    ensures c.hash(r.pk) == r.fp
  {
    hide LowerHex, Unhex, IsVersion, PackageOk, Sorted, StateOk, FromBe, LinesOf;
    var ls := LinesOf(ParseLayout(f).value.body);
    var i :| 0 <= i < |ls| && Records(c.hash, ls)[i] == r;
    assert ParseLine(c.hash, ls[i]) == Some(r);
  }

  /** No two of the strings share a digest. */
  ghost predicate DigestsDiffer(c: Crypto, xs: set<string>) {
    forall x, y :: x in xs && y in xs && c.hash(x) == c.hash(y) ==> x == y
  }

  /** The files of the chain and the keys pinned in them are among xs. */
  ghost predicate Within(c: Crypto, chain: seq<string>, xs: set<string>)
    requires GoodChain(c, chain)
  {
    forall i :: 0 <= i < |chain| ==>
      chain[i] in xs && forall r :: r in At(c, chain, i).records && r.Pinned? ==> r.pk in xs
  }

  /** A signature is valid for one message only. */
  ghost predicate OneMessage(c: Crypto, sig: string) {
    forall m, n, pk :: c.verify(sig, m, pk) && c.verify(sig, n, pk) ==> m == n
  }

  lemma SamePrevious(c: Crypto, p: string, q: string, f: string, xs: set<string>)
    requires DigestOk(c) && DigestsDiffer(c, xs) && AcceptsNext(c, p, f) && AcceptsNext(c, q, f)
    requires p in xs && q in xs && OneMessage(c, Open(c, f).value.file.sig)
    requires forall r :: r in Open(c, p).value.records && r.Pinned? ==> r.pk in xs
    requires forall r :: r in Open(c, q).value.records && r.Pinned? ==> r.pk in xs
    ensures p == q
  {
    hide ParseLayout, ParseBody, Message, KeepsAll;
    var t := Open(c, f).value.file;
    var k, l := KeyFor(Open(c, p).value.records, t.signer), KeyFor(Open(c, q).value.records, t.signer);
    PinnedHash(c, p, Pinned(t.signer, k.value));
    PinnedHash(c, q, Pinned(t.signer, l.value));
    assert k.value == l.value;
    assert MessageOf(c, t, c.hash(p)) == MessageOf(c, t, c.hash(q));
    MessageTells(c, t, p, q);
  }

  lemma MessageTells(c: Crypto, t: File, p: string, q: string)
    requires DigestOk(c) && MessageOf(c, t, c.hash(p)) == MessageOf(c, t, c.hash(q))
    ensures c.hash(p) == c.hash(q)
  {
    var x, y := MessageOf(c, t, c.hash(p)), MessageOf(c, t, c.hash(q));
    assert |TAG| == 16;
    assert x[24..88] == c.hash(p) && y[24..88] == c.hash(q);
  }

  lemma FirstSerial(c: Crypto, chain: seq<string>)
    requires GoodChain(c, chain) && chain != []
    ensures At(c, chain, |chain| - 1).file.serial == 1 <==> |chain| == 1
  {
    hide AcceptsNext, Open;
    assert Accepts(c, StoredAt(chain, 0), chain[0]);
    if |chain| > 1 { SerialsGrow(c, chain, 0, |chain| - 1); }
  }

  ghost predicate OneMessageEach(c: Crypto, chain: seq<string>)
    requires GoodChain(c, chain)
  {
    forall i :: 0 <= i < |chain| ==> OneMessage(c, At(c, chain, i).file.sig)
  }

  lemma PrefixWithin(c: Crypto, chain: seq<string>, j: nat, xs: set<string>)
    requires GoodChain(c, chain) && j <= |chain| && Within(c, chain, xs) && OneMessageEach(c, chain)
    ensures GoodChain(c, chain[..j]) && Within(c, chain[..j], xs) && OneMessageEach(c, chain[..j])
  {
    hide GoodChain, Open, OneMessage;
    PrefixGood(c, chain, j);
    forall i | 0 <= i < j ensures At(c, chain[..j], i) == At(c, chain, i) { }
  }

  lemma SameLastTwo(c: Crypto, a: seq<string>, b: seq<string>, xs: set<string>)
    requires DigestOk(c) && DigestsDiffer(c, xs)
    requires GoodChain(c, a) && GoodChain(c, b) && |a| > 1 && |b| > 1
    requires Within(c, a, xs) && Within(c, b, xs) && OneMessageEach(c, a)
    requires a[|a| - 1] == b[|b| - 1]
    ensures a[|a| - 2] == b[|b| - 2]
  {
    hide Open, GoodChain, OneMessage, DigestOk, DigestsDiffer, Succeeds, SignedBy;
    var m, n := |a| - 1, |b| - 1;
    NextOf(c, a, m);
    NextOf(c, b, n);
    assert At(c, a, m - 1) == Open(c, a[m - 1]).value && At(c, b, n - 1) == Open(c, b[n - 1]).value;
    assert OneMessage(c, At(c, a, m).file.sig);
    SamePrevious(c, a[m - 1], b[n - 1], a[m], xs);
  }

  /** Two directories with the same last file accepted the same files, all
      the way from serial 1. */
  lemma {:induction false} SameLastSameChain(c: Crypto, a: seq<string>, b: seq<string>, xs: set<string>)
    requires DigestOk(c) && DigestsDiffer(c, xs)
    requires GoodChain(c, a) && GoodChain(c, b) && a != [] && b != []
    requires Within(c, a, xs) && Within(c, b, xs) && OneMessageEach(c, a) && OneMessageEach(c, b)
    requires a[|a| - 1] == b[|b| - 1]
    ensures a == b
  {
    hide GoodChain, Open, Within, OneMessageEach, DigestOk, DigestsDiffer;
    var m, n := |a| - 1, |b| - 1;
    FirstSerial(c, a);
    FirstSerial(c, b);
    assert a == a[..m] + [a[m]] && b == b[..n] + [b[n]];
    if m > 0 {
      SameLastTwo(c, a, b, xs);
      PrefixWithin(c, a, m, xs);
      PrefixWithin(c, b, n, xs);
      SameLastSameChain(c, a[..m], b[..n], xs);
    }
  }
}
