/** Choosing the best n of a finite set under one total order: score
    descending, then tie-break ascending, then key ascending. */
module Ranking {
  import opened Ledger

  ghost predicate Before(score: Key -> int, tb: Key -> int, a: Key, b: Key) {
    score(a) > score(b)
    || (score(a) == score(b) && (tb(a) < tb(b) || (tb(a) == tb(b) && a.id <= b.id)))
  }

  lemma BeforeTrans(score: Key -> int, tb: Key -> int, a: Key, b: Key, c: Key)
    requires Before(score, tb, a, b) && Before(score, tb, b, c)
    ensures Before(score, tb, a, c)
  {
  }

  ghost predicate IsTop(score: Key -> int, tb: Key -> int, s: set<Key>, t: Key) {
    t in s && forall x :: x in s ==> Before(score, tb, t, x)
  }

  lemma {:induction false} TopExists(score: Key -> int, tb: Key -> int, s: set<Key>, x: Key) returns (t: Key)
    requires x in s
    ensures IsTop(score, tb, s, t)
    decreases s
  {
    t := x;
    if y :| y in s && y != x {
      var u := TopExists(score, tb, s - {x}, y);
      t := if Before(score, tb, x, u) then x else u;
      forall z | z in s ensures Before(score, tb, t, z) {
        if z != x {
          assert z in s - {x};
          if t == x { BeforeTrans(score, tb, x, u, z); }
        }
      }
    }
  }

  ghost function Top(score: Key -> int, tb: Key -> int, s: set<Key>): (t: Key)
    requires s != {}
    ensures IsTop(score, tb, s, t)
  {
    assert exists t :: IsTop(score, tb, s, t) by {
      var x :| x in s;
      var t := TopExists(score, tb, s, x);
    }
    var t :| IsTop(score, tb, s, t);
    t
  }

  /** The order is antisymmetric, so the top of a set is unique. */
  lemma TopUnique(score: Key -> int, tb: Key -> int, s: set<Key>, t: Key)
    requires IsTop(score, tb, s, t)
    ensures s != {} && t == Top(score, tb, s)
  {
    var u := Top(score, tb, s);
    assert Before(score, tb, t, u) && Before(score, tb, u, t);
  }

  /** The best n of a set, best first. */
  ghost function Ranked(score: Key -> int, tb: Key -> int, s: set<Key>, n: nat): (r: seq<Key>)
    ensures |r| <= n && (s != {} && n > 0 ==> r != [])
    ensures forall i :: 0 <= i < |r| ==> r[i] in s
    decreases n
  {
    if n == 0 || s == {} then []
    else
      var t := Top(score, tb, s);
      [t] + Ranked(score, tb, s - {t}, n - 1)
  }

  ghost predicate Distinct(r: seq<Key>) {
    forall i, j :: 0 <= i < j < |r| ==> r[i] != r[j]
  }

  ghost predicate Sorted(score: Key -> int, tb: Key -> int, r: seq<Key>) {
    forall i, j :: 0 <= i < j < |r| ==> Before(score, tb, r[i], r[j])
  }

  lemma {:induction false} RankedDistinct(score: Key -> int, tb: Key -> int, s: set<Key>, n: nat)
    ensures Distinct(Ranked(score, tb, s, n))
    decreases n
  {
    if n > 0 && s != {} {
      var t := Top(score, tb, s);
      var rest := Ranked(score, tb, s - {t}, n - 1);
      RankedDistinct(score, tb, s - {t}, n - 1);
      assert forall i :: 0 <= i < |rest| ==> rest[i] != t;
      DistinctCons(t, rest);
    }
  }

  lemma DistinctCons(t: Key, rest: seq<Key>)
    requires Distinct(rest) && forall i :: 0 <= i < |rest| ==> rest[i] != t
    ensures Distinct([t] + rest)
  {
  }

  lemma {:induction false} RankedSorted(score: Key -> int, tb: Key -> int, s: set<Key>, n: nat, i: nat, j: nat)
    requires i < j < |Ranked(score, tb, s, n)|
    ensures Before(score, tb, Ranked(score, tb, s, n)[i], Ranked(score, tb, s, n)[j])
    decreases n
  {
    hide Before;
    var t := Top(score, tb, s);
    var rest := Ranked(score, tb, s - {t}, n - 1);
    assert Ranked(score, tb, s, n) == [t] + rest;
    if i == 0 {
      assert ([t] + rest)[j] == rest[j - 1] && rest[j - 1] in s;
    } else {
      RankedSorted(score, tb, s - {t}, n - 1, i - 1, j - 1);
    }
  }

  /** Nobody left out ranks above anybody chosen, and somebody is left out
      only when all n places are taken. */
  lemma {:induction false} RankedBest(score: Key -> int, tb: Key -> int, s: set<Key>, n: nat, x: Key)
    requires x in s && x !in Ranked(score, tb, s, n)
    ensures |Ranked(score, tb, s, n)| == n
    ensures forall i :: 0 <= i < n ==> Before(score, tb, Ranked(score, tb, s, n)[i], x)
    decreases n
  {
    if n > 0 {
      var t := Top(score, tb, s);
      var rest := Ranked(score, tb, s - {t}, n - 1);
      assert Ranked(score, tb, s, n) == [t] + rest;
      assert ([t] + rest)[0] == t;
      assert forall y :: y in rest ==> y in [t] + rest;
      RankedBest(score, tb, s - {t}, n - 1, x);
    }
  }

  // ── sorting ─────────────────────────────────────────────────────────

  ghost function SetOf(ks: seq<Key>): set<Key> { set k | k in ks }

  /** `ks` lists the set s, best first. */
  ghost predicate Listed(score: Key -> int, tb: Key -> int, ks: seq<Key>, s: set<Key>) {
    Sorted(score, tb, ks) && Distinct(ks) && SetOf(ks) == s
  }

  lemma ListedHead(score: Key -> int, tb: Key -> int, ks: seq<Key>, s: set<Key>)
    requires Listed(score, tb, ks, s) && ks != []
    ensures s != {} && ks[0] == Top(score, tb, s)
  {
    assert ks[0] in s;
    forall x | x in s ensures Before(score, tb, ks[0], x) {
      var i :| 0 <= i < |ks| && ks[i] == x;
    }
    TopUnique(score, tb, s, ks[0]);
  }

  lemma ListedTail(score: Key -> int, tb: Key -> int, ks: seq<Key>, s: set<Key>)
    requires Listed(score, tb, ks, s) && ks != []
    ensures Listed(score, tb, ks[1..], s - {ks[0]})
  {
    var rest := ks[1..];
    forall k ensures k in SetOf(rest) <==> k in s - {ks[0]} {
      if k in rest { var i :| 0 <= i < |rest| && rest[i] == k; assert ks[i + 1] == k; }
      if k in s && k != ks[0] { var i :| 0 <= i < |ks| && ks[i] == k; assert rest[i - 1] == k; }
    }
  }

  /** Sorting a set and keeping the first n is ranking it. */
  lemma {:induction false} SortedIsRanked(score: Key -> int, tb: Key -> int, ks: seq<Key>, s: set<Key>, n: nat)
    requires Listed(score, tb, ks, s)
    ensures Ranked(score, tb, s, n) == ks[..if n < |ks| then n else |ks|]
    decreases n
  {
    hide Sorted, Distinct, Top, Before;
    assert ks == [] ==> s == {};
    if n > 0 && ks != [] {
      ListedHead(score, tb, ks, s);
      ListedTail(score, tb, ks, s);
      SortedIsRanked(score, tb, ks[1..], s - {ks[0]}, n - 1);
      assert ks == [ks[0]] + ks[1..];
    }
  }

  lemma InsertSorted(score: Key -> int, tb: Key -> int, ks: seq<Key>, k: Key, i: nat)
    requires Sorted(score, tb, ks) && i <= |ks|
    requires forall j :: 0 <= j < i ==> Before(score, tb, ks[j], k)
    requires i < |ks| ==> Before(score, tb, k, ks[i])
    ensures Sorted(score, tb, ks[..i] + [k] + ks[i..])
  {
    forall j | i <= j < |ks| ensures Before(score, tb, k, ks[j]) {
      if j > i { BeforeTrans(score, tb, k, ks[i], ks[j]); }
    }
  }

  lemma InsertDistinct(ks: seq<Key>, k: Key, i: nat)
    requires Distinct(ks) && i <= |ks| && k !in ks
    ensures Distinct(ks[..i] + [k] + ks[i..])
    ensures SetOf(ks[..i] + [k] + ks[i..]) == SetOf(ks) + {k}
  {
    var r := ks[..i] + [k] + ks[i..];
    assert ks == ks[..i] + ks[i..];
    assert forall x :: x in r <==> x in ks[..i] || x == k || x in ks[i..];
  }
}
