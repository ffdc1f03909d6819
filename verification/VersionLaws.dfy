/** Debian version order by its laws: the epoch decides, then the upstream
    version, then the revision; within a part the first difference does, by
    number or by character. */
module VersionLaws {
  import opened CStrings
  import opened DebVersion
  import opened Options

  // ── which part decides ──────────────────────────────────────────────

  /** The comparison of two parts: that of two versions that are nothing
      else. */
  function PartOrder(a: string, b: string): int { Order(Version(0, a, ""), Version(0, b, "")) }

  /** The smaller epoch is below; at equal epochs the upstream versions decide
      whatever the revisions, and only at equal ones do the revisions. */
  lemma PartsInOrder(a: Version, b: Version)
    ensures a.epoch < b.epoch ==> Order(a, b) == -1
    ensures a.epoch == b.epoch && PartOrder(a.upstream, b.upstream) != 0 ==>
              Order(a, b) == PartOrder(a.upstream, b.upstream)
    ensures a.epoch == b.epoch && PartOrder(a.upstream, b.upstream) == 0 ==>
              Order(a, b) == PartOrder(a.revision, b.revision)
  {
    hide Key, Compare;
    NoRevision();
  }

  lemma NoRevision()
    ensures Compare(Key("", 0), Key("", 0)) == 0
  {
  }

  lemma PartOrderIs(a: string, b: string)
    ensures PartOrder(a, b) == Compare(Key(a, 0), Key(b, 0))
  {
    hide Key, Compare;
    NoRevision();
  }

  // ── the first difference ────────────────────────────────────────────

  /** x and y agree up to n, and no run of digits crosses n in either. */
  predicate AgreeTo(x: string, y: string, n: nat) {
    && n <= |x| && n <= |y| && x[..n] == y[..n]
    && (n > 0 && IsDigit(x[n - 1]) ==> (n < |x| ==> !IsDigit(x[n])) && (n < |y| ==> !IsDigit(y[n])))
  }

  lemma SameRun(x: string, y: string, n: nat, i: nat)
    requires AgreeTo(x, y, n) && i < n && IsDigit(x[i])
    ensures RunEnd(x, i) == RunEnd(y, i) <= n && y[i] == x[i]
    ensures x[i..RunEnd(x, i)] == y[i..RunEnd(y, i)]
    decreases n - i
  {
    assert x[..n][i] == y[..n][i];
    RunWithin(x, n, i);
    RunWithin(y, n, i);
    var j, k := RunEnd(x, i), RunEnd(y, i);
    forall m | i <= m < n ensures x[m] == y[m] { assert x[..n][m] == y[..n][m]; }
    if j < k {
      RunDigits(y, i, j);
    } else if k < j {
      RunDigits(x, i, k);
    }
    assert x[i..j] == x[..n][i..j] && y[i..j] == y[..n][i..j];
  }

  lemma RunDigits(s: string, i: nat, m: nat)
    requires i <= |s| && i <= m < RunEnd(s, i)
    ensures IsDigit(s[m])
  {
    var run := s[i..RunEnd(s, i)];
    assert run[m - i] == s[m];
  }

  lemma {:induction false} RunWithin(s: string, n: nat, i: nat)
    requires i < n <= |s| && IsDigit(s[i]) && (IsDigit(s[n - 1]) && n < |s| ==> !IsDigit(s[n]))
    ensures RunEnd(s, i) <= n
    decreases n - i
  {
    if i + 1 < n && IsDigit(s[i + 1]) { RunWithin(s, n, i + 1); }
  }

  /** What agrees does not matter. */
  lemma {:induction false} SkipCommon(x: string, y: string, n: nat, i: nat)
    requires AgreeTo(x, y, n) && i <= n
    ensures Compare(Key(x, i), Key(y, i)) == Compare(Key(x, n), Key(y, n))
    decreases n - i
  {
    hide Key, Compare, Weight;
    if i < n {
      assert x[..n][i] == y[..n][i];
      if IsDigit(x[i]) {
        SameRun(x, y, n, i);
        NumberStep(x, i, y, i);
        SkipCommon(x, y, n, RunEnd(x, i));
      } else {
        WeightStep(x, i, y, i);
        SkipCommon(x, y, n, i + 1);
      }
    }
  }

  /** Tilde, then letters, then everything else; within a class by code. */
  predicate Sooner(c: char, d: char) {
    if c == '~' || d == '~' then c == '~' && d != '~'
    else if IsAlpha(c) != IsAlpha(d) then IsAlpha(c)
    else c < d
  }

  /** Two parts that first differ in two characters that are not digits. */
  lemma FirstCharacter(p: string, c: char, q: string, d: char, r: string)
    requires !IsDigit(c) && !IsDigit(d) && c != d
    ensures PartOrder(p + [c] + q, p + [d] + r) == if Sooner(c, d) then -1 else 1
  {
    hide Key, Compare;
    var x, y, n := p + [c] + q, p + [d] + r, |p|;
    assert x[..n] == p && y[..n] == p && x[n] == c && y[n] == d;
    SkipCommon(x, y, n, 0);
    WeightDecides(x, n, y, n);
    PartOrderIs(x, y);
  }

  /** A part that goes on, against one that ends there or goes on with a
      number: below it if with a tilde, above it with anything else. */
  lemma GoesOn(p: string, c: char, q: string, rest: string)
    requires !IsDigit(c)
    requires rest != "" ==> IsDigit(rest[0]) && (p == "" || !IsDigit(p[|p| - 1]))
    ensures PartOrder(p + [c] + q, p + rest) == if c == '~' then -1 else 1
  {
    hide Key, Compare;
    var x, y, n := p + [c] + q, p + rest, |p|;
    assert x[..n] == p && y[..n] == p && x[n] == c;
    if rest != "" { assert y[n] == rest[0]; }
    SkipCommon(x, y, n, 0);
    WeightDecides(x, n, y, n);
    PartOrderIs(x, y);
  }

  lemma RunIs(s: string, i: nat, a: string, rest: string)
    requires i <= |s| && s[i..] == a + rest && AllDigits(a) && (rest != "" ==> !IsDigit(rest[0]))
    ensures RunEnd(s, i) == i + |a| && s[i..i + |a|] == a
    decreases |a|
  {
    assert s[i..][..|a|] == a;
    if a == "" {
      if i < |s| { assert s[i] == s[i..][0] == rest[0]; }
    } else {
      assert s[i] == s[i..][0] == a[0];
      assert s[i + 1..] == s[i..][1..] == a[1..] + rest;
      RunIs(s, i + 1, a[1..], rest);
    }
  }

  /** Two parts that first differ in a number, by its value. */
  lemma FirstNumber(p: string, a: string, q: string, b: string, r: string)
    requires a != "" && b != "" && AllDigits(a) && AllDigits(b) && (p == "" || !IsDigit(p[|p| - 1]))
    requires (q != "" ==> !IsDigit(q[0])) && (r != "" ==> !IsDigit(r[0])) && Value(a) != Value(b)
    ensures PartOrder(p + a + q, p + b + r) == if Value(a) < Value(b) then -1 else 1
  {
    hide Key, Compare, Value;
    var x, y, n := p + a + q, p + b + r, |p|;
    assert x[..n] == p && y[..n] == p;
    assert x[n..] == a + q && y[n..] == b + r;
    assert x[n] == a[0] && y[n] == b[0];
    SkipCommon(x, y, n, 0);
    RunIs(x, n, a, q);
    RunIs(y, n, b, r);
    NumberStep(x, n, y, n);
    PartOrderIs(x, y);
  }

  // ── reading a version ───────────────────────────────────────────────

  /** upstream[-revision]. */
  function Rest(x: Version): string { if x.revision == "" then x.upstream else x.upstream + "-" + x.revision }

  predicate UpstreamChar(c: char, dash: bool, colon: bool) {
    IsAlnum(c) || c == '.' || c == '+' || c == '~' || (c == '-' && dash) || (c == ':' && colon)
  }

  predicate RevisionChar(c: char) { IsAlnum(c) || c == '.' || c == '+' || c == '~' }

  predicate Parts(x: Version, colon: bool) {
    && x.upstream != "" && IsDigit(x.upstream[0])
    && (forall i :: 0 <= i < |x.upstream| ==> UpstreamChar(x.upstream[i], x.revision != "", colon))
    && (forall i :: 0 <= i < |x.revision| ==> RevisionChar(x.revision[i]))
  }

  /** The text is the version written out: with an epoch of up to nine digits
      before a colon, or without one. */
  ghost predicate Writes(v: string, x: Version) {
    || (v == Rest(x) && x.epoch == 0 && Parts(x, false))
    || (exists e :: IsEpoch(e, x.epoch) && v == e + ":" + Rest(x) && Parts(x, true))
  }

  predicate IsEpoch(e: string, n: nat) { 0 < |e| <= 9 && AllDigits(e) && Value(e) == n }

  lemma {:induction false} LastAt(s: string, c: char, n: nat, k: nat)
    requires k < n <= |s| && s[k] == c && forall m :: k < m < n ==> s[m] != c
    ensures Last(s, c, n) == Some(k)
    decreases n
  {
    if k < n - 1 { LastAt(s, c, n - 1, k); }
  }

  lemma {:induction false} LastNone(s: string, c: char, n: nat)
    requires n <= |s| && forall m :: 0 <= m < n ==> s[m] != c
    ensures Last(s, c, n) == None
    decreases n
  {
    if n > 0 { LastNone(s, c, n - 1); }
  }

  lemma PartsIs(x: Version, colon: bool)
    ensures Parts(x, colon) <==> UpstreamOk(x.upstream, x.revision != "", colon) && RevisionOk(x.revision)
  {
  }

  lemma RestSplits(x: Version, colon: bool)
    requires Parts(x, colon)
    ensures SplitRest(x.epoch, colon, Rest(x)) == Some(x)
  {
    hide Last, UpstreamOk, RevisionOk;
    PartsIs(x, colon);
    var rest, n := Rest(x), |x.upstream|;
    if x.revision == "" {
      LastNone(rest, '-', |rest|);
    } else {
      forall m | n < m < |rest| ensures rest[m] != '-' { assert rest[m] == x.revision[m - n - 1]; }
      LastAt(rest, '-', |rest|, n);
      assert rest[..n] == x.upstream && rest[n + 1..] == x.revision;
    }
  }

  lemma RestJoins(epoch: nat, colon: bool, rest: string)
    requires SplitRest(epoch, colon, rest).Some?
    ensures var x := SplitRest(epoch, colon, rest).value;
            x.epoch == epoch && Parts(x, colon) && Rest(x) == rest
  {
    hide Last, UpstreamOk, RevisionOk;
    var x, d := SplitRest(epoch, colon, rest).value, Last(rest, '-', |rest|);
    PartsIs(x, colon);
    if d.Some? { assert rest == rest[..d.value] + "-" + rest[d.value + 1..]; }
  }

  /** A text is a version exactly when it is one written out, and is read as
      the parts it was written from. */
  lemma SplitIff(v: string, x: Version)
    ensures DebVersion.Split(v) == Some(x) <==> Writes(v, x)
  {
    hide SplitRest, Parts, Value, Rest;
    if DebVersion.Split(v) == Some(x) { SplitWrites(v, x); }
    if Writes(v, x) { WrittenSplits(v, x); }
  }

  lemma SplitWrites(v: string, x: Version)
    requires DebVersion.Split(v) == Some(x)
    ensures Writes(v, x)
  {
    hide SplitRest, Parts, Value, Rest;
    var c := IndexOf(v, ':');
    if c == |v| {
      RestJoins(0, false, v);
    } else {
      RestJoins(Value(v[..c]), true, v[c + 1..]);
      assert IsEpoch(v[..c], x.epoch);
      assert v == v[..c] + ":" + v[c + 1..];
    }
  }

  lemma WrittenSplits(v: string, x: Version)
    requires Writes(v, x)
    ensures DebVersion.Split(v) == Some(x)
  {
    hide SplitRest, Parts, Value, Rest;
    if v == Rest(x) && x.epoch == 0 && Parts(x, false) {
      NoColon(x);
      IndexOfAt(v, ':', |v|);
      RestSplits(x, false);
    } else {
      var e :| IsEpoch(e, x.epoch) && v == e + ":" + Rest(x) && Parts(x, true);
      assert v[..|e|] == e && v[|e| + 1..] == Rest(x);
      forall i | 0 <= i < |e| ensures e[i] != ':' { assert IsDigit(e[i]); }
      IndexOfAt(v, ':', |e|);
      RestSplits(x, true);
    }
  }

  lemma NoColon(x: Version)
    requires Parts(x, false)
    ensures ':' !in Rest(x)
  {
    assert forall i :: 0 <= i < |x.upstream| ==> x.upstream[i] != ':';
    assert forall i :: 0 <= i < |x.revision| ==> x.revision[i] != ':';
  }
}
