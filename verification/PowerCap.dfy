/** The water-fill power cap: the largest cap under which no counted share
    exceeds r', found by sorting the powers and walking down from the
    largest. */
module PowerCap {
  import opened Sums
  import opened Committee

  const U64_MAX := 0xffff_ffff_ffff_ffff
  const MAX_ACTIVE := 128
  const BPS_MIN := 500
  const BPS_MAX := 3000
  const BPS := 10000

  function Min(a: nat, b: nat): nat { if a < b then a else b }

  /** r' = max(ratio, ceil(10000 / n)). */
  function Rate(n: nat, ratio: nat): nat
    requires n > 0
  {
    var avg := (BPS + n - 1) / n;
    if avg < ratio then ratio else avg
  }

  /** The counted powers under a cap. */
  function Counted(p: seq<nat>, c: nat): (r: seq<nat>)
    ensures |r| == |p| && forall i :: 0 <= i < |p| ==> r[i] == Min(p[i], c)
  {
    seq(|p|, i requires 0 <= i < |p| => Min(p[i], c))
  }

  function CountedTotal(p: seq<nat>, c: nat): nat { SumSeq(Counted(p, c)) }

  /** At c no counted share exceeds r'. */
  predicate Admits(p: seq<nat>, r: nat, c: nat) { c * BPS <= r * CountedTotal(p, c) }

  /** c is the largest cap that does. */
  ghost predicate IsCap(p: seq<nat>, r: nat, c: nat) {
    Admits(p, r, c) && forall d: nat :: d > c ==> !Admits(p, r, d)
  }

  // ── what the cap means ──────────────────────────────────────────────

  lemma CapUnique(p: seq<nat>, r: nat, c: nat, d: nat)
    requires IsCap(p, r, c) && IsCap(p, r, d)
    ensures c == d
  {
  }

  /** No counted share exceeds r'. */
  lemma SharesBounded(p: seq<nat>, r: nat, c: nat, i: nat)
    requires Admits(p, r, c) && i < |p|
    ensures Counted(p, c)[i] * BPS <= r * SumSeq(Counted(p, c))
  {
    MulMono(Counted(p, c)[i], c, BPS);
  }

  lemma RateBounds(n: nat, ratio: nat)
    requires n > 0
    ensures Rate(n, ratio) * n >= BPS && Rate(n, ratio) >= ratio
    ensures n >= 4 && ratio <= BPS_MAX ==> Rate(n, ratio) <= BPS_MAX
  {
    var avg := (BPS + n - 1) / n;
    FloorBounds(BPS + n - 1, n);
    MulMono(avg, Rate(n, ratio), n);
    if n >= 4 { QuarterAtMost(n, avg); }
  }

  lemma QuarterAtMost(n: nat, avg: nat)
    requires n >= 4 && avg == (BPS + n - 1) / n
    ensures avg <= 2501
  {
    if avg > 2501 {
      FloorBounds(BPS + n - 1, n);
      MulMono(2502, avg, n);
    }
  }

  lemma {:induction false} CountedBelow(p: seq<nat>, c: nat, m: nat)
    requires m <= c && forall i :: 0 <= i < |p| ==> p[i] >= m
    ensures CountedTotal(p, c) >= m * |p|
  {
    if p != [] {
      var head := p[..|p| - 1];
      CountedBelow(head, c, m);
      assert Counted(p, c)[..|p| - 1] == Counted(head, c);
      Distribute(|p| - 1, 1, m);
    }
  }

  lemma LeastAdmitted(p: seq<nat>, ratio: nat, m: nat)
    requires p != [] && forall i :: 0 <= i < |p| ==> p[i] >= m
    ensures Admits(p, Rate(|p|, ratio), m)
  {
    var r := Rate(|p|, ratio);
    RateBounds(|p|, ratio);
    CountedBelow(p, m, m);
    MulMono(m * |p|, CountedTotal(p, m), r);
    MulMono(BPS, r * |p|, m);
    Swap(m, r, |p|);
  }

  lemma Swap(m: nat, r: nat, n: nat)
    ensures m * (r * n) == r * (m * n)
  {
  }

  /** The smallest power is never cut. */
  lemma LeastKept(p: seq<nat>, ratio: nat, c: nat, m: nat)
    requires p != [] && IsCap(p, Rate(|p|, ratio), c)
    requires forall i :: 0 <= i < |p| ==> p[i] >= m
    ensures m <= c
  {
    LeastAdmitted(p, ratio, m);
  }

  lemma CountedPositive(p: seq<nat>, c: nat)
    requires p != [] && forall j :: 0 <= j < |p| ==> p[j] > 0
    requires c > 0
    ensures SumSeq(Counted(p, c)) > 0
  {
    SumSeqAt(Counted(p, c), 0);
  }

  /** Under the cap Rule N's floor depends on the number of members alone: no
      concentration of stake can block a retirement any more. */
  lemma CapClearsFloor(p: seq<nat>, ratio: nat, c: nat)
    requires 1 <= |p| && BPS_MIN <= ratio <= BPS_MAX && forall i :: 0 <= i < |p| ==> p[i] > 0
    requires IsCap(p, Rate(|p|, ratio), c)
    ensures ClearsFloor(Counted(p, c)) <==> |p| >= 4
  {
    var ps, r := Counted(p, c), Rate(|p|, ratio);
    LeastKept(p, ratio, c, 1);
    CountedPositive(p, c);
    LargestBounds(ps);
    RateBounds(|p|, ratio);
    var i :| 0 <= i < |ps| && ps[i] == Largest(ps);
    if |p| >= 4 {
      SharesBounded(p, r, c, i);
      MulMono(r, BPS_MAX, SumSeq(ps));
    } else {
      FewMembers(ps);
    }
  }

  lemma FewMembers(ps: seq<nat>)
    requires |ps| <= 3
    ensures !ClearsFloor(ps)
  {
    if ClearsFloor(ps) {
      FloorMeaning(ps);
      PowerfulAtMost(ps);
    }
  }

  lemma {:induction false} PowerfulAtMost(ps: seq<nat>)
    ensures Powerful(ps) <= |ps|
  {
    if ps != [] { PowerfulAtMost(ps[..|ps| - 1]); }
  }

  // ── sorted powers ───────────────────────────────────────────────────

  /** S_k: the powers from k on. */
  function Tail(q: seq<nat>, k: nat): nat
    requires k <= |q|
  {
    SumPrefix(q, k);
    SumSeq(q) - SumSeq(q[..k])
  }

  lemma {:induction false} SumPrefix(q: seq<nat>, k: nat)
    requires k <= |q|
    ensures SumSeq(q[..k]) <= SumSeq(q)
  {
    if k < |q| {
      SumPrefix(q[..|q| - 1], k);
      assert q[..|q| - 1][..k] == q[..k];
    } else {
      assert q[..k] == q;
    }
  }

  lemma TailStep(q: seq<nat>, k: nat)
    requires k < |q|
    ensures Tail(q, k) == q[k] + Tail(q, k + 1)
  {
    SumPrefix(q, k);
    SumPrefix(q, k + 1);
    assert q[..k + 1][..k] == q[..k];
  }

  /** The counted total of the first n powers. */
  lemma {:induction false} PrefixTotal(q: seq<nat>, k: nat, c: nat, n: nat)
    requires n <= |q| && k <= |q|
    ensures n <= k ==> CountedTotal(q[..n], c) <= n * c
    ensures n >= k ==> CountedTotal(q[..n], c) + SumSeq(q[..k]) <= k * c + SumSeq(q[..n])
    decreases n
  {
    if n > 0 {
      PrefixTotal(q, k, c, n - 1);
      assert q[..n][..n - 1] == q[..n - 1];
      assert Counted(q[..n], c)[..n - 1] == Counted(q[..n - 1], c);
      Distribute(n - 1, 1, c);
    }
  }

  lemma TotalBelow(q: seq<nat>, k: nat, c: nat)
    requires k <= |q|
    ensures CountedTotal(q, c) <= k * c + Tail(q, k)
  {
    PrefixTotal(q, k, c, |q|);
    SumPrefix(q, k);
    assert q[..|q|] == q;
  }

  lemma {:induction false} PrefixExact(q: seq<nat>, k: nat, c: nat, n: nat)
    requires n <= |q| && k <= |q| && Descending(q)
    requires (k > 0 ==> q[k - 1] >= c) && (k < |q| ==> q[k] <= c)
    ensures n <= k ==> CountedTotal(q[..n], c) == n * c
    ensures n >= k ==> CountedTotal(q[..n], c) + SumSeq(q[..k]) == k * c + SumSeq(q[..n])
    decreases n
  {
    if n > 0 {
      PrefixExact(q, k, c, n - 1);
      assert q[..n][..n - 1] == q[..n - 1];
      assert Counted(q[..n], c)[..n - 1] == Counted(q[..n - 1], c);
      Distribute(n - 1, 1, c);
      assert q[n - 1] >= c || q[n - 1] <= c;
      if n <= k { assert q[n - 1] >= q[k - 1]; } else { assert q[k] >= q[n - 1]; }
    }
  }

  lemma TotalExact(q: seq<nat>, k: nat, c: nat)
    requires k <= |q| && Descending(q)
    requires (k > 0 ==> q[k - 1] >= c) && (k < |q| ==> q[k] <= c)
    ensures CountedTotal(q, c) == k * c + Tail(q, k)
  {
    PrefixExact(q, k, c, |q|);
    SumPrefix(q, k);
    assert q[..|q|] == q;
  }

  // ── the walk ────────────────────────────────────────────────────────

  /** c_k = floor(r' S_k / (10000 - r' k)). */
  function CapAt(q: seq<nat>, r: nat, k: nat): nat
    requires k <= |q| && r * k < BPS
  {
    MulDiv(r, Tail(q, k), BPS - r * k)
  }

  /** A power above c_k leaves a positive denominator for k + 1 and stays
      above c_(k+1): the walk can go on, and what it capped stays capped. */
  lemma WalkOn(q: seq<nat>, r: nat, k: nat)
    requires k < |q| && r * k < BPS && q[k] > CapAt(q, r, k)
    ensures r * (k + 1) < BPS && CapAt(q, r, k + 1) < q[k]
  {
    TailStep(q, k);
    Distribute(k, 1, r);
    StepBound(q[k], r, Tail(q, k + 1), BPS - r * k);
  }

  lemma StepBound(x: nat, r: nat, rest: nat, d: nat)
    requires d > 0 && x > r * (x + rest) / d
    ensures d > r && r * rest / (d - r) < x
  {
    var num := r * (x + rest);
    FloorBounds(num, d);
    MulMono(num / d + 1, x, d);
    Distribute(num / d, 1, d);
    Distribute(x, rest, r);
    assert x * d > r * x + r * rest;
    if d <= r {
      MulMono(d, r, x);
      assert false;
    }
    var e: nat := d - r;
    Distribute(e, r, x);
    QuotientBelow(r * rest, e, x);
  }

  lemma QuotientBelow(a: nat, e: nat, x: nat)
    requires e > 0 && a < x * e
    ensures a / e < x
  {
    FloorBounds(a, e);
    if a / e >= x { MulMono(x, a / e, e); }
  }

  /** Where the walk stops, c_k is the cap. */
  lemma WalkStops(q: seq<nat>, r: nat, k: nat)
    requires k < |q| && r * k < BPS && Descending(q)
    requires q[k] <= CapAt(q, r, k) && (k > 0 ==> CapAt(q, r, k) < q[k - 1])
    ensures IsCap(q, r, CapAt(q, r, k))
  {
    var c, d, s := CapAt(q, r, k), BPS - r * k, Tail(q, k);
    FloorBounds(r * s, d);
    TotalExact(q, k, c);
    Level(c, r, k, s, d);
    forall x: nat | x > c ensures !Admits(q, r, x) {
      TotalBelow(q, k, x);
      MulMono(c + 1, x, d);
      Distribute(c, 1, d);
      Level(x, r, k, s, d);
      MulMono(CountedTotal(q, x), k * x + s, r);
    }
  }

  /** c's share of k·c + s, cleared of the division. */
  lemma Level(c: nat, r: nat, k: nat, s: nat, d: nat)
    requires d + r * k == BPS
    ensures c * BPS <= r * (k * c + s) <==> c * d <= r * s
  {
    Distribute(d, r * k, c);
    Distribute(k * c, s, r);
    assert c * (r * k) == r * (k * c);
  }

  // ── the index array ─────────────────────────────────────────────────

  function Iota(n: nat): (r: seq<nat>)
    ensures |r| == n && forall i :: 0 <= i < n ==> r[i] == i
  {
    seq(n, i requires 0 <= i => i)
  }

  predicate Indices(idx: seq<nat>, n: nat) { forall i :: 0 <= i < |idx| ==> idx[i] < n }

  /** The powers in index order. */
  function Pick(p: seq<nat>, idx: seq<nat>): (r: seq<nat>)
    requires Indices(idx, |p|)
    ensures |r| == |idx| && forall i :: 0 <= i < |r| ==> r[i] == p[idx[i]]
  {
    seq(|idx|, i requires 0 <= i < |idx| => p[idx[i]])
  }

  lemma {:induction false} SumConcat(a: seq<nat>, b: seq<nat>)
    ensures SumSeq(a + b) == SumSeq(a) + SumSeq(b)
    decreases |b|
  {
    if b == [] {
      assert a + b == a;
    } else {
      SumConcat(a, b[..|b| - 1]);
      assert (a + b)[..|a + b| - 1] == a + b[..|b| - 1];
    }
  }

  /** The counted powers in index order. */
  function Weights(p: seq<nat>, idx: seq<nat>, c: nat): (r: seq<nat>)
    requires Indices(idx, |p|)
    ensures |r| == |idx| && forall i :: 0 <= i < |r| ==> r[i] == Min(p[idx[i]], c)
  {
    seq(|idx|, i requires 0 <= i < |idx| => Min(p[idx[i]], c))
  }

  lemma WeightsConcat(p: seq<nat>, a: seq<nat>, b: seq<nat>, c: nat)
    requires Indices(a, |p|) && Indices(b, |p|)
    ensures Indices(a + b, |p|) && SumSeq(Weights(p, a + b, c)) == SumSeq(Weights(p, a, c)) + SumSeq(Weights(p, b, c))
  {
    assert Weights(p, a + b, c) == Weights(p, a, c) + Weights(p, b, c);
    SumConcat(Weights(p, a, c), Weights(p, b, c));
  }

  /** Splitting one index off. */
  lemma WeightsAt(p: seq<nat>, b: seq<nat>, j: nat, c: nat)
    requires Indices(b, |p|) && j < |b|
    ensures Indices(b[..j] + b[j + 1..], |p|)
    ensures SumSeq(Weights(p, b, c)) == SumSeq(Weights(p, b[..j] + b[j + 1..], c)) + Min(p[b[j]], c)
    ensures multiset(b) == multiset(b[..j] + b[j + 1..]) + multiset{b[j]}
  {
    var x, y, z := b[..j], [b[j]], b[j + 1..];
    assert b == x + y + z;
    WeightsConcat(p, x, y, c);
    WeightsConcat(p, x + y, z, c);
    WeightsConcat(p, x, z, c);
    assert Weights(p, y, c) == [] + [Min(p[b[j]], c)];
    SumConcat([], [Min(p[b[j]], c)]);
  }

  /** A permutation keeps the counted total at every cap. */
  lemma {:induction false} PermutedTotal(p: seq<nat>, a: seq<nat>, b: seq<nat>, c: nat)
    requires Indices(a, |p|) && Indices(b, |p|) && multiset(a) == multiset(b)
    ensures SumSeq(Weights(p, a, c)) == SumSeq(Weights(p, b, c))
    decreases |a|
  {
    hide Weights, SumSeq;
    assert |multiset(a)| == |a| && |multiset(b)| == |b|;
    if a == [] {
      assert a == b;
    } else {
      assert a[0] in multiset(b);
      var j :| 0 <= j < |b| && b[j] == a[0];
      WeightsAt(p, a, 0, c);
      WeightsAt(p, b, j, c);
      MultisetCancel(multiset(a[..0] + a[1..]), multiset(b[..j] + b[j + 1..]), a[0]);
      PermutedTotal(p, a[..0] + a[1..], b[..j] + b[j + 1..], c);
    }
  }

  lemma MultisetCancel(m: multiset<nat>, n: multiset<nat>, x: nat)
    requires m + multiset{x} == n + multiset{x}
    ensures m == n
  {
    assert m == (m + multiset{x}) - multiset{x};
    assert n == (n + multiset{x}) - multiset{x};
  }

  /** The cap of the sorted powers is the cap of the powers. */
  lemma PermutedCap(p: seq<nat>, idx: seq<nat>, r: nat, c: nat)
    requires Indices(idx, |p|) && multiset(idx) == multiset(Iota(|p|)) && IsCap(Pick(p, idx), r, c)
    ensures IsCap(p, r, c)
  {
    forall x: nat ensures CountedTotal(Pick(p, idx), x) == CountedTotal(p, x) {
      PermutedTotal(p, idx, Iota(|p|), x);
      assert Weights(p, idx, x) == Counted(Pick(p, idx), x);
      assert Weights(p, Iota(|p|), x) == Counted(p, x);
    }
    assert Admits(Pick(p, idx), r, c) && Admits(p, r, c);
    forall d: nat | d > c ensures !Admits(p, r, d) { assert !Admits(Pick(p, idx), r, d); }
  }

  /** Whole order of the walk: power descending, id ascending. */
  predicate Earlier(p: seq<nat>, ids: seq<int>, a: nat, b: nat)
    requires a < |p| == |ids| && b < |p|
  {
    p[a] > p[b] || (p[a] == p[b] && ids[a] < ids[b])
  }

  /** The index array after its entry i moved down to j. */
  function Shifted(s: seq<nat>, i: nat, j: nat): (r: seq<nat>)
    requires j <= i < |s|
    ensures |r| == |s| && forall k :: 0 <= k < |s| ==> r[k] == s[From(i, j, k)]
  {
    seq(|s|, k requires 0 <= k < |s| => s[From(i, j, k)])
  }

  /** Where the entry at k came from. */
  function From(i: nat, j: nat, k: nat): nat {
    if k == j then i else if j < k <= i then k - 1 else k
  }

  lemma ShiftedPermutes(s: seq<nat>, i: nat, j: nat)
    requires j <= i < |s|
    ensures multiset(Shifted(s, i, j)) == multiset(s)
  {
    assert s == s[..j] + s[j..i] + [s[i]] + s[i + 1..];
    assert Shifted(s, i, j) == s[..j] + [s[i]] + s[j..i] + s[i + 1..];
  }

  predicate SortedTo(p: seq<nat>, idx: seq<nat>, n: nat)
    requires Indices(idx, |p|)
  {
    n <= |idx| && Descending(Pick(p, idx[..n]))
  }

  lemma ShiftedSorted(p: seq<nat>, s: seq<nat>, i: nat, j: nat)
    requires Indices(s, |p|) && j <= i < |s| && SortedTo(p, s, i)
    requires j > 0 ==> p[s[j - 1]] >= p[s[i]]
    requires forall b :: j <= b < i ==> p[s[i]] >= p[s[b]]
    ensures Indices(Shifted(s, i, j), |p|) && SortedTo(p, Shifted(s, i, j), i + 1)
  {
    var q, r := Pick(p, s[..i]), Shifted(s, i, j);
    assert forall k :: 0 <= k < i ==> q[k] == p[s[k]];
    forall a | 0 <= a < j ensures p[s[a]] >= p[s[i]] {
      if a < j - 1 { assert q[a] >= q[j - 1]; }
    }
    var t := Pick(p, r[..i + 1]);
    assert forall k :: 0 <= k <= i ==> t[k] == p[s[From(i, j, k)]];
    forall a, b | 0 <= a < b <= i ensures t[a] >= t[b] {
      if a != j && b != j { assert q[From(i, j, a)] >= q[From(i, j, b)]; }
    }
  }

  /** Insertion sort of the index array. */
  method SortIndices(p: seq<nat>, ids: seq<int>, idx: array<nat>)
    requires |ids| == |p| == idx.Length > 0 && idx[..] == Iota(|p|)
    modifies idx
    ensures multiset(idx[..]) == multiset(Iota(|p|)) && Indices(idx[..], |p|)
    ensures Descending(Pick(p, idx[..]))
  {
    var n := |p|;
    var i := 1;
    while i < n
      invariant 1 <= i <= n && Indices(idx[..], n)
      invariant multiset(idx[..]) == multiset(Iota(n)) && SortedTo(p, idx[..], i)
    {
      InsertIndex(p, ids, idx, i);
      i := i + 1;
    }
    assert idx[..][..n] == idx[..];
  }

  /** Moves the entries that come after `cur` up by one; j is its place. */
  method ShiftUp(p: seq<nat>, ids: seq<int>, idx: array<nat>, i: nat, cur: nat) returns (j: nat)
    requires |ids| == |p| == idx.Length && i < idx.Length && Indices(idx[..], |p|) && cur == idx[i]
    modifies idx
    ensures j <= i && forall x :: 0 <= x < j || i < x < idx.Length ==> idx[x] == old(idx[x])
    ensures forall x :: j < x <= i ==> idx[x] == old(idx[x - 1])
    ensures forall b :: j <= b < i ==> old(idx[b]) < |p| && p[cur] >= p[old(idx[b])]
    ensures j > 0 ==> old(idx[j - 1]) < |p| && p[old(idx[j - 1])] >= p[cur]
  {
    j := i;
    assert forall x :: 0 <= x < idx.Length ==> idx[..][x] == idx[x];
    while j > 0 && Earlier(p, ids, cur, idx[j - 1])
      invariant 0 <= j <= i
      invariant forall x :: 0 <= x < j || i < x < idx.Length ==> idx[x] == old(idx[x])
      invariant forall x :: j < x <= i ==> idx[x] == old(idx[x - 1])
      invariant forall b :: j <= b < i ==> p[cur] >= p[old(idx[b])]
    {
      idx[j] := idx[j - 1];
      j := j - 1;
    }
  }

  method InsertIndex(p: seq<nat>, ids: seq<int>, idx: array<nat>, i: nat)
    requires |ids| == |p| == idx.Length && i < idx.Length && Indices(idx[..], |p|)
    requires SortedTo(p, idx[..], i)
    modifies idx
    ensures multiset(idx[..]) == multiset(old(idx[..])) && Indices(idx[..], |p|) && SortedTo(p, idx[..], i + 1)
  {
    hide SortedTo, Shifted;
    ghost var s := idx[..];
    var cur := idx[i];
    var j := ShiftUp(p, ids, idx, i, cur);
    idx[j] := cur;
    ShiftedPermutes(s, i, j);
    ShiftedSorted(p, s, i, j);
    assert idx[..] == Shifted(s, i, j);
  }

  /** The caller's powers checked and summed; an overflow is refused. */
  method Total(p: seq<nat>) returns (ok: bool, total: nat)
    requires forall i :: 0 <= i < |p| ==> p[i] <= U64_MAX
    ensures ok <==> (forall i :: 0 <= i < |p| ==> p[i] > 0) && SumSeq(p) <= U64_MAX
    ensures ok ==> total == SumSeq(p)
  {
    total := 0;
    for i := 0 to |p|
      invariant total == SumSeq(p[..i]) <= U64_MAX && forall j :: 0 <= j < i ==> p[j] > 0
    {
      assert p[..i + 1][..i] == p[..i];
      SumPrefix(p, i + 1);
      if p[i] == 0 || total + p[i] > U64_MAX { return false, 0; }
      total := total + p[i];
    }
    assert p[..|p|] == p;
    return true, total;
  }

  /** Walks the sorted powers to the cap. The guards that would refuse valid
      input are never taken. */
  method Walk(q: seq<nat>, r: nat) returns (ok: bool, cap: nat)
    requires q != [] && Descending(q) && r * |q| >= BPS && forall i :: 0 <= i < |q| ==> q[i] > 0
    ensures ok <==> r * SumSeq(q) <= U64_MAX
    ensures ok ==> IsCap(q, r, cap)
  {
    var rest, k := SumSeq(q), 0;
    while k < |q|
      invariant 0 <= k <= |q| && rest == Tail(q, k) && r * k < BPS
      invariant k > 0 ==> CapAt(q, r, k) < q[k - 1] && r * SumSeq(q) <= U64_MAX
    {
      MulMono(rest, SumSeq(q), r);
      if r * rest > U64_MAX { return false, 0; }
      var c := r * rest / (BPS - r * k);
      if q[k] <= c {
        WalkStops(q, r, k);
        return true, c;
      }
      WalkOn(q, r, k);
      TailStep(q, k);
      rest := rest - q[k];
      k := k + 1;
    }
    assert false;
  }

  /** dna_power_cap_counted: refuses exactly the inputs outside its contract,
      and otherwise writes each power cut at the one cap. */
  method CountedPowers(p: seq<nat>, ids: seq<int>, ratio: nat, out: array<nat>) returns (ok: bool, ghost cap: nat)
    requires |ids| == |p| == out.Length && forall i :: 0 <= i < |p| ==> p[i] <= U64_MAX
    modifies out
    ensures ok <==>
      && 1 <= |p| <= 128 && 500 <= ratio <= 3000 && (forall i :: 0 <= i < |p| ==> p[i] > 0)
      && Rate(|p|, ratio) * SumSeq(p) <= 18_446_744_073_709_551_615
    ensures ok ==> IsCap(p, Rate(|p|, ratio), cap) && cap >= 1 && out[..] == Counted(p, cap)
    ensures !ok ==> out[..] == old(out[..])
  {
    hide SumSeq, IsCap, Pick, Rate;
    var n := |p|;
    cap := 0;
    if n == 0 || n > MAX_ACTIVE || ratio < BPS_MIN || ratio > BPS_MAX { return false, 0; }
    var r := Rate(n, ratio);
    RateBounds(n, ratio);
    var summed, total := Total(p);
    MulMono(1, r, SumSeq(p));
    if !summed { return false, 0; }
    var idx := new nat[n](i => i);
    assert idx[..] == Iota(n);
    SortIndices(p, ids, idx);
    var q := Pick(p, idx[..]);
    SortedSum(p, idx[..]);
    var walked, c := Walk(q, r);
    if !walked { return false, 0; }
    PermutedCap(p, idx[..], r, c);
    LeastKept(p, ratio, c, 1);
    cap := c;
    for i := 0 to n
      invariant forall j :: 0 <= j < i ==> out[j] == Min(p[j], c)
    {
      out[i] := if p[i] < c then p[i] else c;
    }
    return true, c;
  }

  lemma SortedSum(p: seq<nat>, idx: seq<nat>)
    requires Indices(idx, |p|) && multiset(idx) == multiset(Iota(|p|)) && forall i :: 0 <= i < |p| ==> p[i] > 0
    ensures SumSeq(Pick(p, idx)) == SumSeq(p) && |idx| == |p|
    ensures forall i :: 0 <= i < |idx| ==> Pick(p, idx)[i] > 0
  {
    hide SumSeq;
    assert |multiset(idx)| == |idx| && |multiset(Iota(|p|))| == |p|;
    var m := SumSeq(p);
    PermutedTotal(p, idx, Iota(|p|), m);
    forall i | 0 <= i < |p| ensures p[i] <= m { SumSeqAt(p, i); }
    assert Weights(p, idx, m) == Pick(p, idx);
    assert Weights(p, Iota(|p|), m) == p;
  }

  /** Reordering the members changes no counted power: the cap is one value
      for the whole set. */
  lemma OrderIndependent(p: seq<nat>, idx: seq<nat>, r: nat, c: nat, d: nat)
    requires Indices(idx, |p|) && multiset(idx) == multiset(Iota(|p|))
    requires IsCap(p, r, c) && IsCap(Pick(p, idx), r, d)
    ensures c == d
  {
    PermutedCap(p, idx, r, d);
    CapUnique(p, r, c, d);
  }
}
