/** strtok and the trim loops of the configuration code, in place on a
    terminated char buffer. */
module Tokens {
  import opened CStrings

  /** The C string at an index of a buffer. */
  ghost function StrAt(buf: array<char>, i: nat): string
    requires i <= buf.Length
    reads buf
  {
    CStr(buf[i..])
  }

  predicate Terminated(buf: array<char>)
    reads buf
  {
    buf.Length > 0 && buf[buf.Length - 1] == '\0'
  }

  lemma CStrCons(s: string)
    requires s != "" && s[0] != '\0'
    ensures CStr(s) == [s[0]] + CStr(s[1..])
  {
    var n := IndexOf(s[1..], '\0');
    assert s[..n + 1] == [s[0]] + s[1..][..n];
  }

  lemma CStrEnd(s: string)
    requires s != "" && s[0] == '\0'
    ensures CStr(s) == ""
  {
  }

  lemma CStrAppend(a: string, s: string)
    requires '\0' !in a
    ensures CStr(a + s) == a + CStr(s)
  {
    var n := IndexOf(s, '\0');
    IndexOfAt(a + s, '\0', |a| + n) by {
      assert (a + s)[..|a| + n] == a + s[..n];
    }
    assert (a + s)[..|a| + n] == a + s[..n];
  }

  method SkipCommas(buf: array<char>, from: nat) returns (p: nat)
    requires Terminated(buf) && from < buf.Length
    ensures from <= p < buf.Length && buf[p] != ','
    ensures Fields(StrAt(buf, p)) == Fields(StrAt(buf, from))
  {
    hide Fields, CStr;
    p := from;
    while buf[p] == ','
      invariant from <= p < buf.Length
      invariant Fields(StrAt(buf, p)) == Fields(StrAt(buf, from))
      decreases buf.Length - p
    {
      SkipComma(buf[..], p);
      assert buf[..][p..] == buf[p..] && buf[..][p + 1..] == buf[p + 1..];
      p := p + 1;
    }
  }

  method ScanToken(buf: array<char>, p: nat) returns (q: nat)
    requires Terminated(buf) && p < buf.Length
    ensures p <= q < buf.Length && (buf[q] == ',' || buf[q] == '\0')
    ensures ',' !in buf[p..q] && '\0' !in buf[p..q]
  {
    q := p;
    while buf[q] != ',' && buf[q] != '\0'
      invariant p <= q < buf.Length
      invariant ',' !in buf[p..q] && '\0' !in buf[p..q]
      decreases buf.Length - q
    {
      assert buf[p..q + 1] == buf[p..q] + [buf[q]];
      q := q + 1;
    }
  }

  /** The field at a token, once trimmed. */
  function FieldAt(f: string): seq<string> { if Trim(f) == "" then [] else [Trim(f)] }

  /** The next comma-free token from `from` on, ended in place by a NUL. */
  method StrTok(buf: array<char>, from: nat) returns (found: bool, tok: nat, next: nat)
    requires Terminated(buf) && from < buf.Length
    modifies buf
    ensures Terminated(buf)
    ensures !found ==> Fields(old(StrAt(buf, from))) == []
    ensures found ==>
      && from <= tok < next < buf.Length && buf[next..] == old(buf[next..])
      && tok + |StrAt(buf, tok)| <= next && tok + |StrAt(buf, tok)| < buf.Length
      && Fields(old(StrAt(buf, from))) == FieldAt(StrAt(buf, tok)) + Fields(StrAt(buf, next))
  {
    hide Fields, FieldAt, CStr;
    ghost var s := buf[..];
    var p := SkipCommas(buf, from);
    if buf[p] == '\0' {
      CStrEnd(buf[p..]);
      NoFields();
      return false, 0, 0;
    }
    var q := ScanToken(buf, p);
    assert s[p..] == buf[p..] && s[p..q] == buf[p..q];
    TokenFields(s, p, q);
    found, tok := true, p;
    if buf[q] == ',' {
      LastNotComma(buf, q);
      buf[q] := '\0';
      next := q + 1;
    } else {
      next := q;
      CStrEnd(buf[q..]);
    }
    assert buf[..] == s[q := '\0'];
    TokenString(buf[..], s, p, q);
    assert buf[..][p..] == buf[p..];
    assert buf[q + 1..] == s[q + 1..];
  }

  lemma NoFields()
    ensures Fields("") == []
  {
    FieldsOne("");
  }

  lemma LastNotComma(buf: array<char>, q: nat)
    requires Terminated(buf) && q < buf.Length && buf[q] == ','
    ensures q + 1 < buf.Length
  {
  }

  lemma SkipComma(s: string, p: nat)
    requires p < |s| && s[p] == ','
    ensures Fields(CStr(s[p..])) == Fields(CStr(s[p + 1..]))
  {
    CStrCons(s[p..]);
    assert s[p..][1..] == s[p + 1..];
    FieldsCons("", CStr(s[p + 1..]));
    assert "" + "," + CStr(s[p + 1..]) == CStr(s[p..]);
  }

  /** The fields from p on: the token s[p..q], then the rest. */
  lemma TokenFields(s: string, p: nat, q: nat)
    requires p <= q < |s| && ',' !in s[p..q] && '\0' !in s[p..q] && (s[q] == ',' || s[q] == '\0')
    ensures var f := s[p..q];
            Fields(CStr(s[p..])) == FieldAt(f) + Fields(if s[q] == ',' then CStr(s[q + 1..]) else "")
  {
    var f := s[p..q];
    assert s[p..] == f + s[q..];
    CStrAppend(f, s[q..]);
    if s[q] == ',' {
      CStrCons(s[q..]);
      assert s[q..][1..] == s[q + 1..];
      assert f + ("," + CStr(s[q + 1..])) == f + "," + CStr(s[q + 1..]);
      FieldsCons(f, CStr(s[q + 1..]));
    } else {
      CStrEnd(s[q..]);
      FieldsOne(f);
      FieldsOne("");
      assert f + "" == f;
    }
  }

  /** After the NUL is written, the buffer holds the token at p. */
  lemma TokenString(t: string, s: string, p: nat, q: nat)
    requires p <= q < |s| == |t| && t == s[q := '\0'] && '\0' !in s[p..q]
    ensures CStr(t[p..]) == s[p..q]
    ensures q + 1 <= |t| && t[q + 1..] == s[q + 1..]
  {
    assert t[p..] == s[p..q] + t[q..];
    CStrAppend(s[p..q], t[q..]);
    CStrEnd(t[q..]);
  }

  // ── trimming ────────────────────────────────────────────────────────

  method StrLen(buf: array<char>, i: nat) returns (n: nat)
    requires Terminated(buf) && i < buf.Length
    ensures n == |StrAt(buf, i)| && i + n < buf.Length && buf[i + n] == '\0'
    ensures buf[i..i + n] == StrAt(buf, i)
  {
    n := 0;
    while buf[i + n] != '\0'
      invariant i + n < buf.Length && '\0' !in buf[i..i + n]
      decreases buf.Length - n
    {
      assert buf[i..i + n + 1] == buf[i..i + n] + [buf[i + n]];
      n := n + 1;
    }
    assert buf[i..][..n] == buf[i..i + n];
    IndexOfAt(buf[i..], '\0', n);
  }

  method SkipBlanks(buf: array<char>, tok: nat) returns (t: nat)
    requires Terminated(buf) && tok < buf.Length
    ensures tok <= t < buf.Length && StrAt(buf, t) == TrimLeft(StrAt(buf, tok))
    ensures t + |StrAt(buf, t)| == tok + |StrAt(buf, tok)|
  {
    hide CStr;
    t := tok;
    while buf[t] == ' '
      invariant tok <= t < buf.Length && TrimLeft(StrAt(buf, t)) == TrimLeft(StrAt(buf, tok))
      invariant t + |StrAt(buf, t)| == tok + |StrAt(buf, tok)|
      decreases buf.Length - t
    {
      CStrCons(buf[t..]);
      assert buf[t..][1..] == buf[t + 1..];
      assert StrAt(buf, t) == [' '] + StrAt(buf, t + 1);
      assert StrAt(buf, t)[1..] == StrAt(buf, t + 1);
      t := t + 1;
    }
    if buf[t] == '\0' { CStrEnd(buf[t..]); } else { CStrCons(buf[t..]); }
  }

  /** Drops the last char of the string at t by ending it one earlier. */
  lemma Shortened(s: string, n: nat)
    requires n < |s| && CStr(s) != "" && n == |CStr(s)| - 1
    ensures CStr(s[n := '\0']) == CStr(s)[..n]
  {
    var m := IndexOf(s, '\0');
    assert s[n := '\0'][..n] == s[..m][..n];
    assert '\0' !in s[..m];
    IndexOfAt(s[n := '\0'], '\0', n);
  }

  lemma TrimRightStep(s: string, n: nat)
    requires 0 < n <= |s| && s[n - 1] == ' '
    ensures TrimRight(s[..n]) == TrimRight(s[..n - 1])
  {
    assert s[..n][..n - 1] == s[..n - 1];
  }

  lemma TrimRightDone(s: string, n: nat)
    requires n <= |s| && (n == 0 || s[n - 1] != ' ')
    ensures TrimRight(s[..n]) == s[..n]
  {
  }

  /** Trims the token at `tok` in place; the token then starts at t. */
  method TrimToken(buf: array<char>, tok: nat) returns (t: nat)
    requires Terminated(buf) && tok < buf.Length
    modifies buf
    ensures Terminated(buf) && tok <= t < buf.Length
    ensures StrAt(buf, t) == Trim(old(StrAt(buf, tok)))
    ensures var end := tok + |old(StrAt(buf, tok))|; end <= buf.Length && buf[end..] == old(buf[end..])
  {
    hide CStr, TrimLeft, TrimRight;
    t := SkipBlanks(buf, tok);
    var n := StrLen(buf, t);
    ghost var s := StrAt(buf, t);
    TrimLeftEnds(old(StrAt(buf, tok)));
    assert s[..n] == s;
    while n > 1 && buf[t + n - 1] == ' '
      invariant n <= |s| && t + |s| < buf.Length && buf[t + n] == '\0' && Terminated(buf)
      invariant StrAt(buf, t) == s[..n] == buf[t..t + n]
      invariant TrimRight(s[..n]) == TrimRight(s)
      invariant buf[t + |s|..] == old(buf[t + |s|..])
    {
      Shortened(buf[t..], n - 1);
      assert s[..n][..n - 1] == s[..n - 1] && s[n - 1] == ' ';
      TrimRightStep(s, n);
      ghost var before := buf[t..];
      buf[t + n - 1] := '\0';
      assert buf[t..] == before[n - 1 := '\0'];
      n := n - 1;
    }
    assert n > 0 ==> s[n - 1] == buf[t + n - 1];
    TrimRightDone(s, n);
  }
}
