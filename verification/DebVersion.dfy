/** Debian versions as the trust tools compare them: the run-by-run
    comparison of two parts is the order of their keys, integer sequences
    padded with zeros, so floors can be compared along a whole chain. */
module DebVersion {
  import opened CStrings
  import opened Options
  import opened Sums

  predicate IsAlpha(c: char) { 'a' <= c <= 'z' || 'A' <= c <= 'Z' }

  predicate IsAlnum(c: char) { IsDigit(c) || IsAlpha(c) }

  /** Tilde before the end of a run, which weighs 0; then letters, then the
      rest. */
  function Weight(c: char): (w: int)
    ensures w != 0
  {
    if c == '~' then -1 else if IsAlpha(c) then c as int else c as int + 256
  }

  predicate AllDigits(s: string) { forall i :: 0 <= i < |s| ==> IsDigit(s[i]) }

  function Value(s: string): nat
    requires AllDigits(s)
  {
    if s == [] then 0 else Value(s[..|s| - 1]) * 10 + DigitOf(s[|s| - 1])
  }

  /** How many characters of s, from i on, are digits. */
  function RunEnd(s: string, i: nat): (j: nat)
    requires i <= |s|
    ensures i <= j <= |s| && AllDigits(s[i..j]) && (j < |s| ==> !IsDigit(s[j]))
    ensures i < |s| && IsDigit(s[i]) ==> i < j
    decreases |s| - i
  {
    if i < |s| && IsDigit(s[i]) then
      var j := RunEnd(s, i + 1);
      assert s[i..j] == [s[i]] + s[i + 1..j];
      j
    else i
  }

  /** The key of the part from i on: a weight for each character of a run of
      non-digits, then 0 and the value of the digits that follow. */
  function Key(s: string, i: nat): seq<int>
    requires i <= |s|
    decreases |s| - i
  {
    if i == |s| then []
    else if IsDigit(s[i]) then
      var j := RunEnd(s, i);
      [0, Value(s[i..j])] + Key(s, j)
    else [Weight(s[i])] + Key(s, i + 1)
  }

  // ── the order of padded sequences ───────────────────────────────────

  function Head(x: seq<int>): int { if x == [] then 0 else x[0] }

  function Tail(x: seq<int>): seq<int> { if x == [] then [] else x[1..] }

  function Sign(a: int, b: int): int { if a < b then -1 else if a > b then 1 else 0 }

  /** Lexicographic comparison, the shorter sequence continued with zeros. */
  function Compare(x: seq<int>, y: seq<int>): (r: int)
    ensures -1 <= r <= 1
    decreases |x| + |y|
  {
    if x == [] && y == [] then 0
    else if Head(x) != Head(y) then Sign(Head(x), Head(y))
    else Compare(Tail(x), Tail(y))
  }

  lemma {:induction false} CompareFlips(x: seq<int>, y: seq<int>)
    ensures Compare(y, x) == -Compare(x, y)
    decreases |x| + |y|
  {
    if !(x == [] && y == []) && Head(x) == Head(y) { CompareFlips(Tail(x), Tail(y)); }
  }

  lemma {:induction false} CompareSame(x: seq<int>)
    ensures Compare(x, x) == 0
  {
    if x != [] { CompareSame(Tail(x)); }
  }

  lemma {:induction false} CompareChains(x: seq<int>, y: seq<int>, z: seq<int>)
    requires Compare(x, y) <= 0 && Compare(y, z) <= 0
    ensures Compare(x, z) <= 0
    ensures Compare(x, z) == 0 ==> Compare(x, y) == 0 && Compare(y, z) == 0
    decreases |x| + |y| + |z|
  {
    if x == [] && y == [] {
    } else if y == [] && z == [] {
    } else if Head(x) == Head(y) && Head(y) == Head(z) {
      CompareChains(Tail(x), Tail(y), Tail(z));
    }
  }

  // ── numbers by their digits ─────────────────────────────────────────

  lemma {:induction false} ValueBelow(s: string)
    requires AllDigits(s)
    ensures Value(s) < Pow(10, |s|)
  {
    if s != [] { ValueBelow(s[..|s| - 1]); }
  }

  lemma {:induction false} ValueFrom(s: string)
    requires AllDigits(s) && s != [] && s[0] != '0'
    ensures Value(s) >= Pow(10, |s| - 1)
  {
    if |s| > 1 { ValueFrom(s[..|s| - 1]); }
  }

  lemma {:induction false} PowGrows(m: nat, n: nat)
    requires m <= n
    ensures Pow(10, m) <= Pow(10, n)
  {
    if m < n { PowGrows(m, n - 1); }
  }

  /** Without leading zeros the longer number is the larger. */
  lemma LongerIsLarger(a: string, b: string)
    requires AllDigits(a) && AllDigits(b) && |a| < |b| && b[0] != '0'
    ensures Value(a) < Value(b)
  {
    ValueBelow(a);
    ValueFrom(b);
    PowGrows(|a|, |b| - 1);
  }

  /** At equal lengths the first differing digit decides. */
  lemma {:induction false} FirstDigitDecides(a: string, b: string, k: nat)
    requires AllDigits(a) && AllDigits(b) && k < |a| == |b| && a[..k] == b[..k] && a[k] < b[k]
    ensures Value(a) < Value(b)
  {
    var n := |a| - 1;
    if k < n {
      assert a[..n][..k] == a[..k] && b[..n][..k] == b[..k];
      FirstDigitDecides(a[..n], b[..n], k);
    } else {
      assert a[..n] == a[..k] && b[..n] == b[..k];
    }
  }

  lemma {:induction false} LeadingZeros(s: string, k: nat)
    requires AllDigits(s) && k <= |s| && forall i :: 0 <= i < k ==> s[i] == '0'
    ensures Value(s) == Value(s[k..])
    decreases |s|
  {
    if |s| == k {
      if k > 0 {
        LeadingZeros(s[..k - 1], k - 1);
        assert s[..k - 1][k - 1..] == [];
      }
    } else {
      var n := |s| - 1;
      LeadingZeros(s[..n], k);
      assert s[k..][..|s| - k - 1] == s[..n][k..];
    }
  }

  // ── the comparison of two parts ─────────────────────────────────────

  method SkipZeros(s: string, i: nat) returns (k: nat)
    requires i <= |s|
    ensures i <= k <= RunEnd(s, i)
    ensures Value(s[i..RunEnd(s, i)]) == Value(s[k..RunEnd(s, i)])
    ensures k < RunEnd(s, i) ==> s[k] != '0'
  {
    k := i;
    ghost var j := RunEnd(s, i);
    while k < |s| && s[k] == '0'
      invariant i <= k <= j
      invariant forall m :: i <= m < k ==> s[m] == '0'
    {
      k := k + 1;
    }
    LeadingZeros(s[i..j], k - i);
    assert s[i..j][k - i..] == s[k..j];
  }

  method SkipDigits(s: string, i: nat, ghost from: nat) returns (j: nat)
    requires from <= |s| && from <= i <= RunEnd(s, from)
    ensures j == RunEnd(s, from)
  {
    j := i;
    while j < |s| && IsDigit(s[j])
      invariant i <= j <= RunEnd(s, from)
    {
      j := j + 1;
    }
    assert forall m :: from <= m < RunEnd(s, from) ==> s[from..RunEnd(s, from)][m - from] == s[m];
  }

  /** The digit runs at i and j, by value and without computing it. */
  method CompareNumbers(a: string, i: nat, b: string, j: nat) returns (r: int, i': nat, j': nat)
    requires i <= |a| && j <= |b|
    ensures i' == RunEnd(a, i) && j' == RunEnd(b, j)
    ensures r == Sign(Value(a[i..i']), Value(b[j..j']))
  {
    var ai := SkipZeros(a, i);
    var bj := SkipZeros(b, j);
    i' := SkipDigits(a, ai, i);
    j' := SkipDigits(b, bj, j);
    r := CompareDigits(a[ai..i'], b[bj..j']);
  }

  method CompareDigits(a: string, b: string) returns (r: int)
    requires AllDigits(a) && AllDigits(b) && (a != [] ==> a[0] != '0') && (b != [] ==> b[0] != '0')
    ensures r == Sign(Value(a), Value(b))
  {
    if |a| < |b| {
      LongerIsLarger(a, b);
      return -1;
    }
    if |a| > |b| {
      LongerIsLarger(b, a);
      return 1;
    }
    for k := 0 to |a|
      invariant a[..k] == b[..k]
    {
      if a[k] < b[k] {
        FirstDigitDecides(a, b, k);
        return -1;
      }
      if a[k] > b[k] {
        FirstDigitDecides(b, a, k);
        return 1;
      }
    }
    assert a[..|a|] == a && b[..|b|] == b;
    return 0;
  }

  lemma NumberStep(a: string, i: nat, b: string, j: nat)
    requires i <= |a| && j <= |b|
    requires (i < |a| ==> IsDigit(a[i])) && (j < |b| ==> IsDigit(b[j]))
    ensures var va, vb := Value(a[i..RunEnd(a, i)]), Value(b[j..RunEnd(b, j)]);
            Compare(Key(a, i), Key(b, j)) ==
            if va != vb then Sign(va, vb) else Compare(Key(a, RunEnd(a, i)), Key(b, RunEnd(b, j)))
  {
    var x, y := Key(a, i), Key(b, j);
    assert Head(x) == 0 == Head(y);
    assert Head(Tail(x)) == Value(a[i..RunEnd(a, i)]) && Head(Tail(y)) == Value(b[j..RunEnd(b, j)]);
    assert Tail(Tail(x)) == Key(a, RunEnd(a, i)) && Tail(Tail(y)) == Key(b, RunEnd(b, j));
  }

  lemma WeightStep(a: string, i: nat, b: string, j: nat)
    requires i < |a| && j < |b| && !IsDigit(a[i]) && !IsDigit(b[j]) && Weight(a[i]) == Weight(b[j])
    ensures Compare(Key(a, i), Key(b, j)) == Compare(Key(a, i + 1), Key(b, j + 1))
  {
    assert Tail(Key(a, i)) == Key(a, i + 1) && Tail(Key(b, j)) == Key(b, j + 1);
  }

  /** A non-digit against a digit, the end, or a non-digit of another weight. */
  lemma WeightDecides(a: string, i: nat, b: string, j: nat)
    requires i <= |a| && j <= |b|
    requires (i < |a| && !IsDigit(a[i])) || (j < |b| && !IsDigit(b[j]))
    requires WeightAt(a, i) != WeightAt(b, j)
    ensures Compare(Key(a, i), Key(b, j)) == Sign(WeightAt(a, i), WeightAt(b, j))
  {
    assert Head(Key(a, i)) == WeightAt(a, i) && Head(Key(b, j)) == WeightAt(b, j);
  }

  function WeightAt(s: string, i: nat): int
    requires i <= |s|
  {
    if i < |s| && !IsDigit(s[i]) then Weight(s[i]) else 0
  }

  /** Run by run, as the deb-version manual page sorts. */
  method ComparePart(a: string, b: string) returns (r: int)
    ensures r == Compare(Key(a, 0), Key(b, 0))
  {
    hide Key, Compare, Weight;
    var i: nat, j: nat := 0, 0;
    while i < |a| || j < |b|
      invariant i <= |a| && j <= |b|
      invariant Compare(Key(a, 0), Key(b, 0)) == Compare(Key(a, i), Key(b, j))
      decreases |a| + |b| - i - j
    {
      ghost var i0, j0 := i, j;
      while (i < |a| && !IsDigit(a[i])) || (j < |b| && !IsDigit(b[j]))
        invariant i0 <= i <= |a| && j0 <= j <= |b|
        invariant Compare(Key(a, 0), Key(b, 0)) == Compare(Key(a, i), Key(b, j))
        decreases |a| + |b| - i - j
      {
        var wa, wb := WeightAt(a, i), WeightAt(b, j);
        if wa != wb {
          WeightDecides(a, i, b, j);
          return if wa < wb then -1 else 1;
        }
        WeightStep(a, i, b, j);
        i, j := i + 1, j + 1;
      }
      NumberStep(a, i, b, j);
      r, i, j := CompareNumbers(a, i, b, j);
      if r != 0 { return; }
    }
    NoneLeft(a, b);
    r := 0;
  }

  lemma NoneLeft(a: string, b: string)
    ensures Key(a, |a|) == [] && Compare(Key(a, |a|), Key(b, |b|)) == 0
  {
  }

  // ── whole versions ──────────────────────────────────────────────────

  /** [epoch:]upstream[-revision]; an absent revision is empty. */
  datatype Version = Version(epoch: nat, upstream: string, revision: string)

  /** The last place of c before n, if any. */
  function Last(s: string, c: char, n: nat): (k: Option<nat>)
    requires n <= |s|
    ensures k.Some? ==> k.value < n && s[k.value] == c && forall m :: k.value < m < n ==> s[m] != c
    ensures k.None? ==> forall m :: 0 <= m < n ==> s[m] != c
  {
    if n == 0 then None else if s[n - 1] == c then Some(n - 1) else Last(s, c, n - 1)
  }

  predicate UpstreamOk(s: string, dash: bool, epoch: bool) {
    && s != [] && IsDigit(s[0])
    && forall i :: 0 <= i < |s| ==>
         IsAlnum(s[i]) || s[i] in ".+~" || (s[i] == '-' && dash) || (s[i] == ':' && epoch)
  }

  predicate RevisionOk(s: string) { forall i :: 0 <= i < |s| ==> IsAlnum(s[i]) || s[i] in "+.~" }

  function SplitRest(epoch: nat, hasEpoch: bool, rest: string): Option<Version> {
    var d := Last(rest, '-', |rest|);
    var up := if d.Some? then rest[..d.value] else rest;
    var rev := if d.Some? then rest[d.value + 1..] else [];
    if (d.Some? && rev == []) || !UpstreamOk(up, d.Some?, hasEpoch) || !RevisionOk(rev) then None
    else Some(Version(epoch, up, rev))
  }

  function Split(v: string): Option<Version> {
    var c := IndexOf(v, ':');
    if c == |v| then SplitRest(0, false, v)
    else if c == 0 || c > 9 || !AllDigits(v[..c]) then None
    else SplitRest(Value(v[..c]), true, v[c + 1..])
  }

  predicate IsVersion(v: string) { Split(v).Some? }

  function Order(a: Version, b: Version): (r: int)
    ensures -1 <= r <= 1
  {
    if a.epoch != b.epoch then Sign(a.epoch, b.epoch)
    else
      var r := Compare(Key(a.upstream, 0), Key(b.upstream, 0));
      if r != 0 then r else Compare(Key(a.revision, 0), Key(b.revision, 0))
  }

  /** The comparison of two version strings, None unless both are versions. */
  method CompareVersions(a: string, b: string) returns (r: Option<int>)
    ensures r == if IsVersion(a) && IsVersion(b) then Some(Order(Split(a).value, Split(b).value)) else None
  {
    hide Key, Compare, Split;
    var x, y := Split(a), Split(b);
    if x.None? || y.None? { return None; }
    if x.value.epoch != y.value.epoch { return Some(if x.value.epoch < y.value.epoch then -1 else 1); }
    var c := ComparePart(x.value.upstream, y.value.upstream);
    if c == 0 { c := ComparePart(x.value.revision, y.value.revision); }
    return Some(c);
  }

  /** The comparison is a total preorder: every two versions compare, one way
      or the other or equal, and the comparison chains. */
  lemma OrderTotal(a: Version, b: Version)
    ensures Order(b, a) == -Order(a, b) && Order(a, a) == 0
  {
    hide Key, Compare;
    CompareFlips(Key(a.upstream, 0), Key(b.upstream, 0));
    CompareFlips(Key(a.revision, 0), Key(b.revision, 0));
    CompareSame(Key(a.upstream, 0));
    CompareSame(Key(a.revision, 0));
  }

  lemma OrderChains(a: Version, b: Version, c: Version)
    requires Order(a, b) <= 0 && Order(b, c) <= 0
    ensures Order(a, c) <= 0
  {
    hide Key, Compare;
    if a.epoch == b.epoch == c.epoch {
      CompareChains(Key(a.upstream, 0), Key(b.upstream, 0), Key(c.upstream, 0));
      if Compare(Key(a.upstream, 0), Key(c.upstream, 0)) == 0 {
        CompareChains(Key(a.revision, 0), Key(b.revision, 0), Key(c.revision, 0));
      }
    }
  }

  // ── an absent revision ──────────────────────────────────────────────

  function NonZero(s: string, i: nat): (k: nat)
    requires i <= |s|
    ensures i <= k <= |s| && (k < |s| ==> s[k] != '0') && forall m :: i <= m < k ==> s[m] == '0'
    decreases |s| - i
  {
    if i == |s| || s[i] != '0' then i else NonZero(s, i + 1)
  }

  lemma {:induction false} Zeros(s: string)
    requires forall i :: 0 <= i < |s| ==> s[i] == '0'
    ensures Value(s) == 0
  {
    if s != [] { Zeros(s[..|s| - 1]); }
  }

  lemma PositiveRun(s: string, k: nat)
    requires AllDigits(s) && k < |s| && s[k] != '0' && forall i :: 0 <= i < k ==> s[i] == '0'
    ensures Value(s) > 0
  {
    LeadingZeros(s, k);
    ValueFrom(s[k..]);
  }

  /** No revision comes before a revision exactly when, past its leading
      zeros, the revision goes on and not with a tilde; it comes after one
      that goes on with a tilde, and equals one of zeros only. */
  lemma AbsentRevision(rev: string)
    ensures var k := NonZero(rev, 0);
            Compare([], Key(rev, 0)) == if k == |rev| then 0 else if rev[k] == '~' then 1 else -1
  {
    hide Key, Compare, Value;
    var k := NonZero(rev, 0);
    NoneLeft("", rev);
    if rev != [] && IsDigit(rev[0]) {
      var j := RunEnd(rev, 0);
      NumberStep("", 0, rev, 0);
      Zeros("");
      assert rev[0..j] == rev[..j];
      if k < j {
        PositiveRun(rev[..j], k);
      } else {
        Zeros(rev[..j]);
        if j < |rev| { WeightDecides("", 0, rev, j); }
      }
    } else if rev != [] {
      WeightDecides("", 0, rev, 0);
    }
  }
}
