/** The bytes of a trust file and of the message its signature covers. Both
    layouts can be read back, in both directions. */
module TrustFile {
  import opened Options
  import opened Sums
  import opened TrustBody

  const VERSION := 1
  const SIG_LEN := 4627
  const FIXED := 77

  predicate IsBytes(s: string) { forall i :: 0 <= i < |s| ==> s[i] as int < 256 }

  // ── big-endian numbers ──────────────────────────────────────────────

  function Be(n: nat, w: nat): (r: string)
    ensures |r| == w && IsBytes(r)
  {
    if w == 0 then "" else Be(n / 256, w - 1) + [(n % 256) as char]
  }

  function FromBe(s: string): nat {
    if s == "" then 0 else FromBe(s[..|s| - 1]) * 256 + s[|s| - 1] as int
  }

  lemma {:induction false} FromBeOfBe(n: nat, w: nat)
    requires n < Pow(256, w)
    ensures FromBe(Be(n, w)) == n
  {
    if w > 0 {
      FromBeOfBe(n / 256, w - 1);
      assert Be(n, w)[..w - 1] == Be(n / 256, w - 1);
    }
  }

  lemma {:induction false} BeOfFromBe(s: string)
    requires IsBytes(s)
    ensures FromBe(s) < Pow(256, |s|) && Be(FromBe(s), |s|) == s
  {
    if s != "" {
      BeOfFromBe(s[..|s| - 1]);
      var n := FromBe(s);
      assert n / 256 == FromBe(s[..|s| - 1]) && n % 256 == s[|s| - 1] as int;
      assert s == s[..|s| - 1] + [s[|s| - 1]];
    }
  }

  lemma BeInjective(m: nat, n: nat, w: nat)
    requires m < Pow(256, w) && n < Pow(256, w) && Be(m, w) == Be(n, w)
    ensures m == n
  {
    FromBeOfBe(m, w);
    FromBeOfBe(n, w);
  }

  // ── the file ────────────────────────────────────────────────────────

  datatype File = File(serial: nat, signer: string, body: string, sig: string)

  predicate Fits(t: File) {
    t.serial < Pow(256, 8) && |t.signer| == HASH_LEN && |t.body| <= BODY_MAX && |t.sig| == SIG_LEN
  }

  function Print(t: File): string {
    [VERSION as char] + Be(t.serial, 8) + t.signer + Be(|t.body|, 4) + t.body + Be(SIG_LEN, 2) + t.sig
  }

  /** The layout alone: version first, the body's length before the body. */
  function ParseLayout(f: string): Option<File> {
    if f == "" || f[0] as int != VERSION || |f| < FIXED then None else
      var n := FromBe(f[73..FIXED]);
      if n > BODY_MAX || |f| != FIXED + n + 2 + SIG_LEN then None
      else if FromBe(f[FIXED + n..FIXED + n + 2]) != SIG_LEN then None
      else Some(File(FromBe(f[1..9]), f[9..73], f[FIXED..FIXED + n], f[FIXED + n + 2..]))
  }

  lemma Sizes()
    ensures Pow(256, 2) == 65536 && Pow(256, 4) == 0x1_0000_0000
  {
    assert Pow(256, 1) == 256 && Pow(256, 3) == 256 * Pow(256, 2);
  }

  /** What was written is read back. */
  lemma ParsePrint(t: File)
    requires Fits(t)
    ensures ParseLayout(Print(t)) == Some(t)
  {
    hide FromBe, Be, Pow;
    var f, n := Print(t), |t.body|;
    Sizes();
    FromBeOfBe(t.serial, 8);
    FromBeOfBe(n, 4);
    FromBeOfBe(SIG_LEN, 2);
    assert f[1..9] == Be(t.serial, 8);
    assert f[9..73] == t.signer;
    assert f[73..FIXED] == Be(n, 4);
    assert f[FIXED..FIXED + n] == t.body;
    assert f[FIXED + n..FIXED + n + 2] == Be(SIG_LEN, 2);
    assert f[FIXED + n + 2..] == t.sig;
  }

  /** What was read is what writing it gives: no second layout of a file
      passes. */
  lemma PrintParse(f: string)
    requires IsBytes(f) && ParseLayout(f).Some?
    ensures Fits(ParseLayout(f).value) && Print(ParseLayout(f).value) == f
  {
    hide FromBe, Be, Pow;
    var t := ParseLayout(f).value;
    var n := |t.body|;
    assert n == FromBe(f[73..FIXED]);
    BeOfFromBe(f[1..9]);
    BeOfFromBe(f[73..FIXED]);
    BeOfFromBe(f[FIXED + n..FIXED + n + 2]);
    assert f == [f[0]] + f[1..9] + f[9..73] + f[73..FIXED] + f[FIXED..FIXED + n]
                + f[FIXED + n..FIXED + n + 2] + f[FIXED + n + 2..];
  }

  // ── the signed message ──────────────────────────────────────────────

  const TAG := "NDS.QGPTRUST.v1\0"

  function Message(hash: string -> string, serial: nat, prev: string, signer: string, body: string): string {
    TAG + Be(serial, 8) + prev + signer + hash(body)
  }

  /** The message tells the serial, the previous file's digest, the signer and
      the digest of the body apart. */
  lemma MessageInjective(hash: string -> string, s: File, p: string, t: File, q: string)
    requires Fits(s) && Fits(t) && |p| == HASH_LEN == |q|
    requires Message(hash, s.serial, p, s.signer, s.body) == Message(hash, t.serial, q, t.signer, t.body)
    ensures s.serial == t.serial && p == q && s.signer == t.signer && hash(s.body) == hash(t.body)
  {
    hide Be, Pow;
    var a, b := Message(hash, s.serial, p, s.signer, s.body), Message(hash, t.serial, q, t.signer, t.body);
    assert |TAG| == 16;
    assert a[16..24] == Be(s.serial, 8) && b[16..24] == Be(t.serial, 8);
    assert a[24..88] == p && b[24..88] == q;
    assert a[88..152] == s.signer && b[88..152] == t.signer;
    assert a[152..] == hash(s.body) && b[152..] == hash(t.body);
    BeInjective(s.serial, t.serial, 8);
  }
}
