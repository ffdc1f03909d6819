/** The C library string functions the configuration code uses, on strings of
    chars in which '\0' ends a C string. */
module CStrings {

  /** strcspn / strchr: the first index of c, or the length. */
  function IndexOf(s: string, c: char): (r: nat)
    ensures r <= |s| && c !in s[..r]
    ensures r < |s| ==> s[r] == c
  {
    if s == "" || s[0] == c then 0
    else
      var r := 1 + IndexOf(s[1..], c);
      assert s[..r] == [s[0]] + s[1..][..r - 1];
      r
  }

  lemma {:induction false} IndexOfAt(s: string, c: char, i: nat)
    requires i <= |s| && c !in s[..i] && (i == |s| || s[i] == c)
    ensures IndexOf(s, c) == i
    decreases i
  {
    if i > 0 {
      assert s[..i] == [s[0]] + s[1..][..i - 1];
      IndexOfAt(s[1..], c, i - 1);
    }
  }

  /** The C string held in a buffer. */
  function CStr(s: string): string { s[..IndexOf(s, '\0')] }

  /** At most n bytes, as strncpy leaves them in a zeroed field. */
  function Cut(s: string, n: nat): string { if |s| <= n then s else s[..n] }

  /** The pieces between separators, empty ones included. */
  function Pieces(s: string, c: char): (r: seq<string>)
    ensures r != [] && forall i :: 0 <= i < |r| ==> c !in r[i]
    decreases |s|
  {
    var i := IndexOf(s, c);
    if i == |s| then
      assert s[..i] == s;
      [s]
    else [s[..i]] + Pieces(s[i + 1..], c)
  }

  function Glue(ps: seq<string>, c: char): string {
    if ps == [] then "" else if |ps| == 1 then ps[0] else ps[0] + [c] + Glue(ps[1..], c)
  }

  lemma PiecesAt(s: string, c: char)
    ensures var i := IndexOf(s, c);
            Pieces(s, c) == if i == |s| then [s] else [s[..i]] + Pieces(s[i + 1..], c)
  {
    hide IndexOf;
  }

  lemma GlueCons(p: string, ps: seq<string>, c: char)
    requires ps != []
    ensures Glue([p] + ps, c) == p + [c] + Glue(ps, c)
  {
    assert ([p] + ps)[1..] == ps;
  }

  /** The pieces, with the separators put back, are the string. */
  lemma {:induction false} GluePieces(s: string, c: char)
    ensures Glue(Pieces(s, c), c) == s
    decreases |s|
  {
    hide Pieces, IndexOf;
    var i := IndexOf(s, c);
    PiecesAt(s, c);
    if i < |s| {
      hide Glue;
      GluePieces(s[i + 1..], c);
      GlueCons(s[..i], Pieces(s[i + 1..], c), c);
      assert s == s[..i] + [c] + s[i + 1..];
    }
  }

  // ── comma-separated fields ──────────────────────────────────────────

  /** Every field, empty ones included. */
  function Split(s: string): seq<string> { Pieces(s, ',') }

  function TrimLeft(s: string): string {
    if s != "" && s[0] == ' ' then TrimLeft(s[1..]) else s
  }

  function TrimRight(s: string): string {
    if s != "" && s[|s| - 1] == ' ' then TrimRight(s[..|s| - 1]) else s
  }

  function Trim(s: string): string { TrimRight(TrimLeft(s)) }

  predicate Trimmed(s: string) { s != "" && s[0] != ' ' && s[|s| - 1] != ' ' }

  /** The fields that are not empty after trimming, in order. */
  function NonBlank(fs: seq<string>): seq<string> {
    if fs == [] then []
    else (if Trim(fs[0]) == "" then [] else [Trim(fs[0])]) + NonBlank(fs[1..])
  }

  function Fields(s: string): seq<string> { NonBlank(Split(s)) }

  lemma {:induction false} TrimRightEnds(s: string)
    ensures TrimRight(s) <= s
    ensures TrimRight(s) != "" ==> TrimRight(s)[|TrimRight(s)| - 1] != ' '
    ensures s != "" && s[0] != ' ' ==> TrimRight(s) != "" && TrimRight(s)[0] == s[0]
  {
    if s != "" && s[|s| - 1] == ' ' { TrimRightEnds(s[..|s| - 1]); }
  }

  lemma {:induction false} TrimLeftEnds(s: string)
    ensures |TrimLeft(s)| <= |s| && TrimLeft(s) == s[|s| - |TrimLeft(s)|..]
    ensures TrimLeft(s) != "" ==> TrimLeft(s)[0] != ' '
  {
    if s != "" && s[0] == ' ' {
      TrimLeftEnds(s[1..]);
    }
  }

  /** A trimmed field is blank or has no space at either end, and every one of
      its chars is one of the field's. */
  lemma TrimEnds(s: string)
    ensures Trim(s) == "" || Trimmed(Trim(s))
    ensures |Trim(s)| <= |s| && forall c :: c in Trim(s) ==> c in s
  {
    TrimLeftEnds(s);
    TrimRightEnds(TrimLeft(s));
  }

  lemma TrimTrimmed(s: string)
    requires Trimmed(s)
    ensures Trim(s) == s
  {
  }

  lemma {:induction false} FieldsOne(s: string)
    requires ',' !in s
    ensures Fields(s) == if Trim(s) == "" then [] else [Trim(s)]
  {
    IndexOfAt(s, ',', |s|);
    assert Split(s) == [s];
    assert NonBlank([s]) == (if Trim(s) == "" then [] else [Trim(s)]) + NonBlank([]);
  }

  lemma FieldsCons(f: string, s: string)
    requires ',' !in f
    ensures Fields(f + "," + s) == (if Trim(f) == "" then [] else [Trim(f)]) + Fields(s)
  {
    var t := f + "," + s;
    assert t[..|f|] == f && t[|f| + 1..] == s;
    IndexOfAt(t, ',', |f|);
    var fs := Split(t);
    assert fs == [f] + Split(s);
    assert fs[1..] == Split(s);
  }

  // ── joining ─────────────────────────────────────────────────────────

  function Join(fs: seq<string>): string {
    if fs == [] then "" else if |fs| == 1 then fs[0] else fs[0] + "," + Join(fs[1..])
  }

  /** Splitting a joined list of fields gives the fields trimmed, the blank
      ones gone. */
  lemma {:induction false} FieldsJoin(fs: seq<string>)
    requires forall i :: 0 <= i < |fs| ==> ',' !in fs[i]
    ensures Fields(Join(fs)) == NonBlank(fs)
  {
    if fs == [] {
      FieldsOne("");
    } else if |fs| == 1 {
      FieldsOne(fs[0]);
      assert fs[1..] == [];
    } else {
      FieldsJoin(fs[1..]);
      FieldsCons(fs[0], Join(fs[1..]));
    }
  }

  /** The length of the fields and the commas between them. */
  function JoinLen(fs: seq<string>): nat {
    if fs == [] then 0 else |fs[0]| + (if |fs| == 1 then 0 else 1 + JoinLen(fs[1..]))
  }

  lemma {:induction false} JoinLength(fs: seq<string>)
    ensures |Join(fs)| == JoinLen(fs)
  {
    if |fs| > 1 { JoinLength(fs[1..]); }
  }

  lemma JoinLenCons(f: string, fs: seq<string>)
    ensures JoinLen([f] + fs) == |f| + (if fs == [] then 0 else 1 + JoinLen(fs))
  {
    assert ([f] + fs)[1..] == fs;
  }

  lemma {:induction false} NonBlankLen(fs: seq<string>)
    ensures JoinLen(NonBlank(fs)) <= JoinLen(fs)
    ensures fs == [] ==> NonBlank(fs) == []
  {
    if fs != [] {
      NonBlankLen(fs[1..]);
      TrimEnds(fs[0]);
      assert fs == [fs[0]] + fs[1..];
      JoinLenCons(fs[0], fs[1..]);
      JoinLenCons(Trim(fs[0]), NonBlank(fs[1..]));
      assert Trim(fs[0]) == "" ==> NonBlank(fs) == NonBlank(fs[1..]);
    }
  }

  lemma {:induction false} SplitLen(s: string)
    ensures Split(s) != [] && JoinLen(Split(s)) == |s|
    decreases |s|
  {
    var i := IndexOf(s, ',');
    if i < |s| {
      SplitLen(s[i + 1..]);
      JoinLenCons(s[..i], Split(s[i + 1..]));
    }
  }

  lemma FieldsLen(s: string)
    ensures JoinLen(Fields(s)) <= |s|
  {
    SplitLen(s);
    NonBlankLen(Split(s));
  }

  /** f has no comma and only chars of s. */
  predicate FieldOf(f: string, s: string) { ',' !in f && forall c :: c in f ==> c in s }

  lemma {:induction false} SplitOf(s: string, whole: string)
    requires forall c :: c in s ==> c in whole
    ensures forall i :: 0 <= i < |Split(s)| ==> FieldOf(Split(s)[i], whole)
    decreases |s|
  {
    var i := IndexOf(s, ',');
    if i < |s| {
      SplitOf(s[i + 1..], whole);
      assert Split(s) == [s[..i]] + Split(s[i + 1..]);
    }
  }

  lemma {:induction false} NonBlankOf(fs: seq<string>, whole: string)
    requires forall i :: 0 <= i < |fs| ==> FieldOf(fs[i], whole)
    ensures forall i :: 0 <= i < |NonBlank(fs)| ==> Trimmed(NonBlank(fs)[i]) && FieldOf(NonBlank(fs)[i], whole)
  {
    if fs != [] {
      NonBlankOf(fs[1..], whole);
      TrimEnds(fs[0]);
    }
  }

  /** Every field is trimmed, has no comma, and only chars of the string. */
  lemma FieldsOf(s: string)
    ensures forall i :: 0 <= i < |Fields(s)| ==> Trimmed(Fields(s)[i]) && FieldOf(Fields(s)[i], s)
  {
    SplitOf(s, s);
    NonBlankOf(Split(s), s);
  }

  // ── decimal numbers ─────────────────────────────────────────────────

  predicate IsDigit(c: char) { '0' <= c <= '9' }

  function DigitOf(c: char): nat
    requires IsDigit(c)
  {
    (c as int) - ('0' as int)
  }

  function DigitChar(d: nat): (c: char)
    requires d < 10
    ensures IsDigit(c) && DigitOf(c) == d
  {
    (d + ('0' as int)) as char
  }

  /** "%d" of a nonnegative int. */
  function Decimal(n: nat): (r: string)
    ensures r != "" && forall c :: c in r ==> IsDigit(c)
  {
    if n < 10 then [DigitChar(n)] else Decimal(n / 10) + [DigitChar(n % 10)]
  }

  /** The digits at the front of s, read on top of `acc`. */
  function Digits(s: string, acc: nat): nat {
    if s == "" || !IsDigit(s[0]) then acc else Digits(s[1..], acc * 10 + DigitOf(s[0]))
  }

  predicate IsSpace(c: char) { c == ' ' || '\t' <= c <= '\r' }

  function SkipSpaces(s: string): string {
    if s != "" && IsSpace(s[0]) then SkipSpaces(s[1..]) else s
  }

  const LONG_MAX := 0x7fff_ffff_ffff_ffff
  const INT_MAX := 0x7fff_ffff
  const WORD := 0x1_0000_0000

  /** Truncation of a long to a 32-bit int. */
  function ToInt(x: int): (r: int)
    ensures -INT_MAX - 1 <= r <= INT_MAX
  {
    var m := x % WORD;
    if m > INT_MAX then m - WORD else m
  }

  /** atoi as `(int) strtol(s, NULL, 10)`: white space, a sign, digits; the
      long saturates, the int keeps its low 32 bits. */
  function Atoi(s: string): (r: int)
    ensures -INT_MAX - 1 <= r <= INT_MAX
  {
    var t := SkipSpaces(s);
    if t != "" && t[0] == '-' then
      var n: int := Digits(t[1..], 0);
      ToInt(if n > LONG_MAX + 1 then -LONG_MAX - 1 else -n)
    else
      var n: int := Digits(if t != "" && t[0] == '+' then t[1..] else t, 0);
      ToInt(if n > LONG_MAX then LONG_MAX else n)
  }

  lemma {:induction false} DigitsAppend(s: string, c: char, acc: nat)
    requires (forall d :: d in s ==> IsDigit(d)) && IsDigit(c)
    ensures Digits(s + [c], acc) == Digits(s, acc) * 10 + DigitOf(c)
    decreases |s|
  {
    if s == "" {
      assert s + [c] == [c] && [c][1..] == "";
    } else {
      assert (s + [c])[1..] == s[1..] + [c];
      DigitsAppend(s[1..], c, acc * 10 + DigitOf(s[0]));
    }
  }

  lemma {:induction false} DigitsDecimal(n: nat)
    ensures Digits(Decimal(n), 0) == n
  {
    if n < 10 {
      assert [DigitChar(n)][1..] == "";
    } else {
      DigitsDecimal(n / 10);
      DigitsAppend(Decimal(n / 10), DigitChar(n % 10), 0);
    }
  }

  /** Printing an int and reading it back. */
  lemma AtoiDecimal(n: nat)
    requires n <= INT_MAX
    ensures Atoi(Decimal(n)) == n
  {
    DigitsDecimal(n);
    var s := Decimal(n);
    assert IsDigit(s[0]);
  }
}
