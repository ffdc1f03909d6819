/** Finite sums over maps and sequences, and the floor-division facts the
    ledger's reward arithmetic rests on. */
module Sums {

  /** The value stored under `k`, or 0 when the row is absent. */
  function At<K>(m: map<K, nat>, k: K): nat {
    if k in m then m[k] else 0
  }

  /** The sum of all values of `m`. */
  ghost function Sum<K>(m: map<K, nat>): nat
    decreases |m|
  {
    if m == map[] then 0
    else
      var k :| k in m;
      assert (m - {k}).Keys == m.Keys - {k};
      m[k] + Sum(m - {k})
  }

  lemma {:induction false} SumRemove<K>(m: map<K, nat>, k: K)
    requires k in m
    ensures Sum(m) == m[k] + Sum(m - {k})
    decreases |m|
  {
    var j :| j in m && Sum(m) == m[j] + Sum(m - {j});
    if j != k {
      assert (m - {j}).Keys == m.Keys - {j};
      assert (m - {k}).Keys == m.Keys - {k};
      SumRemove(m - {j}, k);
      SumRemove(m - {k}, j);
      assert m - {j} - {k} == m - {k} - {j};
    }
  }

  lemma SumSet<K>(m: map<K, nat>, k: K, x: nat)
    ensures Sum(m[k := x]) == Sum(m) - At(m, k) + x
    ensures At(m, k) <= Sum(m)
  {
    SumRemove(m[k := x], k);
    assert m[k := x] - {k} == m - {k};
    if k in m {
      SumRemove(m, k);
    } else {
      assert m - {k} == m;
    }
  }

  lemma SumDrop<K>(m: map<K, nat>, k: K)
    ensures Sum(m - {k}) == Sum(m) - At(m, k)
    ensures At(m, k) <= Sum(m)
  {
    if k in m { SumRemove(m, k); } else { assert m - {k} == m; }
  }

  /** A sum splits along any predicate on its keys. */
  lemma {:induction false} SumSplit<K>(m: map<K, nat>, s: set<K>)
    ensures Sum(m) == Sum(m - s) + Sum(map k | k in m && k in s :: m[k])
    decreases |m|
  {
    if m == map[] {
      assert m - s == m;
      assert (map k | k in m && k in s :: m[k]) == m;
    } else {
      var j :| j in m;
      var r := m - {j};
      assert r.Keys == m.Keys - {j};
      SumSplit(r, s);
      SumRemove(m, j);
      var a, b := m - s, map k | k in m && k in s :: m[k];
      var a', b' := r - s, map k | k in r && k in s :: r[k];
      if j in s {
        SumRemove(b, j);
        assert b - {j} == b';
        assert a == a';
      } else {
        SumRemove(a, j);
        assert a - {j} == a';
        assert b == b';
      }
    }
  }

  lemma {:induction false} SumMono<K>(a: map<K, nat>, b: map<K, nat>)
    requires forall k :: k in a ==> a[k] <= At(b, k)
    ensures Sum(a) <= Sum(b)
    decreases |a|
  {
    if a != map[] {
      var j :| j in a;
      var a' := a - {j};
      assert a'.Keys == a.Keys - {j};
      SumRemove(a, j);
      SumDrop(b, j);
      forall k | k in a' ensures a'[k] <= At(b - {j}, k) {
        assert k in a;
      }
      SumMono(a', b - {j});
    }
  }

  /** Row-wise addition; rows of either side are kept. */
  function Plus<K>(a: map<K, nat>, b: map<K, nat>): (r: map<K, nat>)
    ensures r.Keys == a.Keys + b.Keys
    ensures forall k :: k in r ==> r[k] == At(a, k) + At(b, k)
  {
    map k | k in a.Keys + b.Keys :: At(a, k) + At(b, k)
  }

  lemma PlusDrop<K>(a: map<K, nat>, b: map<K, nat>, j: K)
    ensures Plus(a, b) - {j} == Plus(a - {j}, b - {j})
  {
    var l, r := Plus(a, b) - {j}, Plus(a - {j}, b - {j});
    assert l.Keys == r.Keys by {
      assert l.Keys == a.Keys + b.Keys - {j};
      assert (a - {j}).Keys == a.Keys - {j};
      assert (b - {j}).Keys == b.Keys - {j};
    }
    forall k | k in l.Keys ensures l[k] == r[k] {
      assert k != j && k in Plus(a, b) && k in r;
      assert At(a - {j}, k) == At(a, k) && At(b - {j}, k) == At(b, k);
    }
  }

  lemma {:induction false} SumPlus<K>(a: map<K, nat>, b: map<K, nat>)
    ensures Sum(Plus(a, b)) == Sum(a) + Sum(b)
    decreases |b|
  {
    if b == map[] {
      assert Plus(a, b) == a;
    } else {
      var j :| j in b;
      assert (b - {j}).Keys == b.Keys - {j};
      SumPlus(a - {j}, b - {j});
      SumRemove(b, j);
      SumDrop(a, j);
      SumRemove(Plus(a, b), j);
      PlusDrop(a, b, j);
    }
  }

  lemma {:induction false} SumZero<K>(m: map<K, nat>)
    requires forall k :: k in m ==> m[k] == 0
    ensures Sum(m) == 0
    decreases |m|
  {
    if m != map[] {
      var j :| j in m;
      assert (m - {j}).Keys == m.Keys - {j};
      SumRemove(m, j);
      SumZero(m - {j});
    }
  }

  /** Renaming the rows of a map one to one keeps its sum. */
  lemma {:induction false} SumImage<K, L>(m: map<K, nat>, f: K -> L, g: L -> K, r: map<L, nat>)
    requires forall k :: k in m ==> f(k) in r && r[f(k)] == m[k] && g(f(k)) == k
    requires forall l :: l in r ==> g(l) in m && f(g(l)) == l
    ensures Sum(r) == Sum(m)
    decreases |m|
  {
    if m == map[] {
      assert r == map[];
    } else {
      var k :| k in m;
      assert (m - {k}).Keys == m.Keys - {k};
      SumRemove(m, k);
      SumRemove(r, f(k));
      SumImage(m - {k}, f, g, r - {f(k)});
    }
  }

  lemma SumAtMost<K>(m: map<K, nat>, k: K)
    ensures At(m, k) <= Sum(m)
  {
    SumDrop(m, k);
  }

  /** Sum of a sequence, and its extension on the right. */
  function SumSeq(s: seq<nat>): nat {
    if s == [] then 0 else SumSeq(s[..|s| - 1]) + s[|s| - 1]
  }

  lemma {:induction false} SumSeqAt(s: seq<nat>, i: nat)
    requires i < |s|
    ensures s[i] <= SumSeq(s)
  {
    if i < |s| - 1 { SumSeqAt(s[..|s| - 1], i); }
  }

  lemma {:induction false} SharesFair(pot: nat, total: nat, ws: seq<nat>, xs: seq<nat>)
    requires total > 0 && |xs| == |ws|
    requires forall i :: 0 <= i < |ws| ==> xs[i] <= MulDiv(pot, ws[i], total)
    ensures SumSeq(xs) * total <= pot * SumSeq(ws)
  {
    if ws != [] {
      var n := |ws| - 1;
      SharesFair(pot, total, ws[..n], xs[..n]);
      FloorBounds(pot * ws[n], total);
      MulMono(xs[n], MulDiv(pot, ws[n], total), total);
      Distribute(SumSeq(xs[..n]), xs[n], total);
      Distribute(SumSeq(ws[..n]), ws[n], pot);
    }
  }

  // ── floor division ──────────────────────────────────────────────────

  lemma FloorBounds(x: nat, d: nat)
    requires d > 0
    ensures (x / d) * d <= x < (x / d) * d + d
  {
  }

  /** floor(a·b / d), the 128-bit multiply-divide of the source. */
  function MulDiv(a: nat, b: nat, d: nat): nat
    requires d > 0
  {
    a * b / d
  }

  lemma FloorShareAtMost(c: nat, a: nat, d: nat)
    requires d > 0 && a <= d
    ensures MulDiv(c, a, d) <= c
  {
    FloorBounds(c * a, d);
    MulMono(a, d, c);
    MulCancel(c * a / d, c, d);
  }

  lemma Distribute(a: nat, b: nat, c: nat)
    ensures (a + b) * c == a * c + b * c
    ensures c * (a + b) == c * a + c * b
  {
  }

  lemma MulMono(a: nat, b: nat, c: nat)
    requires a <= b
    ensures a * c <= b * c
    ensures c * a <= c * b
  {
  }

  lemma MulCancel(a: nat, b: nat, c: nat)
    requires c > 0 && a * c <= b * c
    ensures a <= b
  {
    if b < a {
      MulMono(b + 1, a, c);
    }
  }

  /** The floored pro-rata rows of one pot. */
  ghost function ProRata<K>(pot: nat, weights: map<K, nat>, total: nat): (r: map<K, nat>)
    requires total > 0
    ensures r.Keys == weights.Keys
    ensures forall k :: k in r ==> r[k] == MulDiv(pot, weights[k], total)
  {
    map k | k in weights :: MulDiv(pot, weights[k], total)
  }

  lemma ProRataDrop<K>(pot: nat, weights: map<K, nat>, total: nat, j: K)
    requires total > 0
    ensures ProRata(pot, weights, total) - {j} == ProRata(pot, weights - {j}, total)
  {
    var l, r := ProRata(pot, weights, total) - {j}, ProRata(pot, weights - {j}, total);
    assert l.Keys == r.Keys;
    forall k | k in l.Keys ensures l[k] == r[k] {
      assert k in weights - {j} && (weights - {j})[k] == weights[k];
    }
  }

  /** `xs` units were paid for weight `ws` over `n` rows: never above
      pot·ws/total, and below it by less than one unit a row. */
  ghost predicate Fair(pot: nat, total: nat, ws: nat, xs: nat, n: nat) {
    xs * total <= pot * ws <= xs * total + n * total
  }

  lemma ProRataStep(pot: nat, total: nat, w: nat, ws: nat, xs: nat, n: nat)
    requires total > 0 && Fair(pot, total, ws, xs, n)
    ensures Fair(pot, total, w + ws, MulDiv(pot, w, total) + xs, n + 1)
  {
    FloorBounds(pot * w, total);
    Distribute(MulDiv(pot, w, total), xs, total);
    Distribute(w, ws, pot);
    Distribute(n, 1, total);
  }

  lemma {:induction false} ProRataFair<K>(pot: nat, weights: map<K, nat>, total: nat)
    requires total > 0
    ensures Fair(pot, total, Sum(weights), Sum(ProRata(pot, weights, total)), |weights|)
    decreases |weights|
  {
    if weights == map[] {
      assert ProRata(pot, weights, total) == map[];
    } else {
      var j :| j in weights;
      assert (weights - {j}).Keys == weights.Keys - {j};
      ProRataFair(pot, weights - {j}, total);
      SumRemove(weights, j);
      SumRemove(ProRata(pot, weights, total), j);
      ProRataDrop(pot, weights, total, j);
      ProRataStep(pot, total, weights[j], Sum(weights - {j}),
                  Sum(ProRata(pot, weights - {j}, total)), |weights - {j}|);
    }
  }

  /** Floored pro-rata rows never exceed the pot they share. */
  lemma ProRataAtMost<K>(pot: nat, weights: map<K, nat>)
    requires Sum(weights) > 0
    ensures Sum(ProRata(pot, weights, Sum(weights))) <= pot
    ensures pot <= Sum(ProRata(pot, weights, Sum(weights))) + |weights|
  {
    var t := Sum(weights);
    var s := Sum(ProRata(pot, weights, t));
    ProRataFair(pot, weights, t);
    MulCancel(s, pot, t);
    Distribute(s, |weights|, t);
    MulCancel(pot, s + |weights|, t);
  }

  function Pow(b: nat, n: nat): (p: nat)
    ensures b > 0 ==> p > 0
  {
    if n == 0 then 1 else b * Pow(b, n - 1)
  }

  predicate Descending(a: seq<nat>) { forall i, j :: 0 <= i < j < |a| ==> a[i] >= a[j] }
}
