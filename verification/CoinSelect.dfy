/** Choosing the coins of a payment: sorted largest first, picked from the
    front. The pick uses the fewest coins any choice could, and is refused
    for its number of inputs only when no fifteen coins would do. */
module CoinSelect {
  import opened Sums

  const MAX_IN := 15
  const U64_MAX := 0xffff_ffff_ffff_ffff

  datatype Coin = Coin(nul: int, amount: nat, kind: nat, used: bool)

  datatype Pick = Picked(idx: seq<nat>, sum: nat) | Insufficient | MaxInputs | Overflow

  predicate Usable(c: Coin, kind: nat) { !c.used && c.kind == kind }

  /** The usable coins among the first n, by index. */
  function UsableTo(coins: seq<Coin>, kind: nat, n: nat): (r: seq<nat>)
    requires n <= |coins|
    ensures forall i :: 0 <= i < |r| ==> r[i] < n && Usable(coins[r[i]], kind)
  {
    if n == 0 then []
    else UsableTo(coins, kind, n - 1) + (if Usable(coins[n - 1], kind) then [n - 1] else [])
  }

  function AmountsOf(coins: seq<Coin>, idx: seq<nat>): (r: seq<nat>)
    requires forall i :: 0 <= i < |idx| ==> idx[i] < |coins|
    ensures |r| == |idx| && forall i :: 0 <= i < |r| ==> r[i] == coins[idx[i]].amount
  {
    seq(|idx|, i requires 0 <= i < |idx| => coins[idx[i]].amount)
  }

  /** The amounts a pick of this kind may use, in the coins' order. */
  function Purse(coins: seq<Coin>, kind: nat): seq<nat> { AmountsOf(coins, UsableTo(coins, kind, |coins|)) }

  /** k is the first number of coins from the front that covers the need. */
  predicate Reaches(a: seq<nat>, need: nat, k: nat) {
    k <= |a| && SumSeq(a[..k]) >= need && forall j :: 0 <= j < k ==> SumSeq(a[..j]) < need
  }

  /** The loop: usable coins in order until the need is covered. */
  method Choose(coins: seq<Coin>, kind: nat, need: nat) returns (r: Pick)
    requires forall i :: 0 <= i < |coins| ==> coins[i].amount <= U64_MAX
    ensures r.Picked? ==>
      && Reaches(Purse(coins, kind), need, |r.idx|) && |r.idx| <= 15
      && (forall i :: 0 <= i < |r.idx| ==> r.idx[i] < |coins| && !coins[r.idx[i]].used && coins[r.idx[i]].kind == kind)
      && r.idx == UsableTo(coins, kind, |coins|)[..|r.idx|] && r.sum == SumSeq(Purse(coins, kind)[..|r.idx|]) <= U64_MAX
    ensures r.MaxInputs? ==> |Purse(coins, kind)| > 15 && SumSeq(Purse(coins, kind)[..15]) < need
    ensures r.Insufficient? ==> SumSeq(Purse(coins, kind)) < need
    ensures r.Overflow? ==> SumSeq(Purse(coins, kind)) > U64_MAX
  {
    hide UsableTo, Purse, SumSeq, Usable, SoFar, Reaches;
    var idx: seq<nat>, sum: nat, i := [], 0, 0;
    NoCoins(coins, kind, need);
    while i < |coins| && sum < need
      invariant 0 <= i <= |coins| && SoFar(coins, kind, need, i, idx, sum)
    {
      if Usable(coins[i], kind) {
        if |idx| >= MAX_IN { TooMany(coins, kind, need, i, idx, sum); return MaxInputs; }
        if sum > U64_MAX - coins[i].amount { TooLarge(coins, kind, need, i, idx, sum); return Overflow; }
        Taken(coins, kind, need, i, idx, sum);
        idx := idx + [i];
        sum := sum + coins[i].amount;
      } else {
        Skipped(coins, kind, need, i, idx, sum);
      }
      i := i + 1;
    }
    Ended(coins, kind, need, i, idx, sum);
    if sum >= need { return Picked(idx, sum); }
    return Insufficient;
  }

  /** The usable coins among the first i, all needed, and what they are worth. */
  ghost predicate SoFar(coins: seq<Coin>, kind: nat, need: nat, i: nat, idx: seq<nat>, sum: nat) {
    var a := Purse(coins, kind);
    && i <= |coins| && idx == UsableTo(coins, kind, i) && |idx| <= MAX_IN && |idx| <= |a|
    && sum == SumSeq(a[..|idx|]) <= U64_MAX
    && forall j :: 0 <= j < |idx| ==> SumSeq(a[..j]) < need
  }

  lemma NoCoins(coins: seq<Coin>, kind: nat, need: nat)
    ensures SoFar(coins, kind, need, 0, [], 0)
  {
    assert Purse(coins, kind)[..0] == [];
  }

  lemma Taken(coins: seq<Coin>, kind: nat, need: nat, i: nat, idx: seq<nat>, sum: nat)
    requires SoFar(coins, kind, need, i, idx, sum) && i < |coins| && sum < need && Usable(coins[i], kind)
    requires |idx| < MAX_IN && sum + coins[i].amount <= U64_MAX
    ensures SoFar(coins, kind, need, i + 1, idx + [i], sum + coins[i].amount)
  {
    hide UsableTo, Purse, SumSeq, Usable;
    NextCoin(coins, kind, i);
  }

  lemma Skipped(coins: seq<Coin>, kind: nat, need: nat, i: nat, idx: seq<nat>, sum: nat)
    requires SoFar(coins, kind, need, i, idx, sum) && i < |coins| && !Usable(coins[i], kind)
    ensures SoFar(coins, kind, need, i + 1, idx, sum)
  {
    hide UsableTo, Purse, SumSeq, Usable;
    NextCoin(coins, kind, i);
  }

  lemma TooMany(coins: seq<Coin>, kind: nat, need: nat, i: nat, idx: seq<nat>, sum: nat)
    requires SoFar(coins, kind, need, i, idx, sum) && i < |coins| && sum < need && Usable(coins[i], kind)
    requires |idx| >= MAX_IN
    ensures |Purse(coins, kind)| > 15 && SumSeq(Purse(coins, kind)[..15]) < need
  {
    hide UsableTo, Purse, SumSeq, Usable;
    NextCoin(coins, kind, i);
  }

  lemma TooLarge(coins: seq<Coin>, kind: nat, need: nat, i: nat, idx: seq<nat>, sum: nat)
    requires SoFar(coins, kind, need, i, idx, sum) && i < |coins| && Usable(coins[i], kind)
    requires sum + coins[i].amount > U64_MAX
    ensures SumSeq(Purse(coins, kind)) > U64_MAX
  {
    hide UsableTo, Purse, SumSeq, Usable;
    NextCoin(coins, kind, i);
  }

  lemma Ended(coins: seq<Coin>, kind: nat, need: nat, i: nat, idx: seq<nat>, sum: nat)
    requires SoFar(coins, kind, need, i, idx, sum) && (i == |coins| || sum >= need)
    ensures var a := Purse(coins, kind);
            && |idx| <= 15 && |idx| <= |a| && |idx| <= |UsableTo(coins, kind, |coins|)|
            && idx == UsableTo(coins, kind, |coins|)[..|idx|] && sum == SumSeq(a[..|idx|]) <= U64_MAX
            && (forall k :: 0 <= k < |idx| ==> idx[k] < |coins| && !coins[idx[k]].used && coins[idx[k]].kind == kind)
            && (sum >= need ==> Reaches(a, need, |idx|)) && (sum < need ==> SumSeq(a) < need)
  {
    hide UsableTo, Purse, SumSeq;
    FrontOf(coins, kind, i);
  }

  /** One more coin: skipped, or the next one of the purse. */
  lemma NextCoin(coins: seq<Coin>, kind: nat, i: nat)
    requires i < |coins|
    ensures var idx, a := UsableTo(coins, kind, i), Purse(coins, kind);
            && |idx| <= |a|
            && UsableTo(coins, kind, i + 1) == idx + (if Usable(coins[i], kind) then [i] else [])
            && (Usable(coins[i], kind) ==>
                  |idx| < |a| && SumSeq(a[..|idx| + 1]) == SumSeq(a[..|idx|]) + coins[i].amount <= SumSeq(a))
  {
    var idx, a := UsableTo(coins, kind, i), Purse(coins, kind);
    UsableGrows(coins, kind, i);
    UsableGrows(coins, kind, i + 1);
    if Usable(coins[i], kind) {
      var k := |idx|;
      assert UsableTo(coins, kind, |coins|)[k] == i;
      assert a[..k + 1][..k] == a[..k];
      PrefixAtMost(a, k + 1);
    }
  }

  lemma FrontOf(coins: seq<Coin>, kind: nat, i: nat)
    requires i <= |coins|
    ensures var idx, all := UsableTo(coins, kind, i), UsableTo(coins, kind, |coins|);
            && |Purse(coins, kind)| == |all| && |idx| <= |all| && idx == all[..|idx|]
            && (forall k :: 0 <= k < |idx| ==> idx[k] < |coins| && !coins[idx[k]].used && coins[idx[k]].kind == kind)
            && (i == |coins| ==> Purse(coins, kind)[..|idx|] == Purse(coins, kind))
  {
    UsableGrows(coins, kind, i);
  }

  lemma {:induction false} UsableGrows(coins: seq<Coin>, kind: nat, n: nat)
    requires n <= |coins|
    ensures UsableTo(coins, kind, n) <= UsableTo(coins, kind, |coins|)
    decreases |coins| - n
  {
    if n < |coins| { UsableGrows(coins, kind, n + 1); }
  }

  lemma {:induction false} PrefixAtMost(a: seq<nat>, k: nat)
    requires k <= |a|
    ensures SumSeq(a[..k]) <= SumSeq(a)
  {
    if k == |a| {
      assert a[..k] == a;
    } else {
      PrefixAtMost(a[..|a| - 1], k);
      assert a[..|a| - 1][..k] == a[..k];
    }
  }

  // ── no other choice does better ─────────────────────────────────────

  /** What a set of coins is worth. */
  ghost function Worth(a: seq<nat>, s: set<nat>): nat {
    if a == [] then 0 else Worth(a[..|a| - 1], s) + (if |a| - 1 in s then a[|a| - 1] else 0)
  }

  ghost predicate Positions(s: set<nat>, n: nat) { forall x :: x in s ==> x < n }

  lemma {:induction false} WorthDrop(a: seq<nat>, s: set<nat>, x: nat)
    requires x >= |a|
    ensures Worth(a, s - {x}) == Worth(a, s)
  {
    if a != [] { WorthDrop(a[..|a| - 1], s, x); }
  }

  lemma {:induction false} SizeBelow(s: set<nat>, n: nat)
    requires Positions(s, n)
    ensures |s| <= n
  {
    if n == 0 {
      assert s == {};
    } else {
      SizeBelow(s - {n - 1}, n - 1);
      if n - 1 in s { assert s == s - {n - 1} + {n - 1}; } else { assert s - {n - 1} == s; }
    }
  }

  /** The first m coins are worth at least any m coins. */
  lemma {:induction false} FrontIsBest(a: seq<nat>, s: set<nat>)
    requires Descending(a) && Positions(s, |a|)
    ensures |s| <= |a| && Worth(a, s) <= SumSeq(a[..|s|])
  {
    hide SumSeq;
    NoneSum();
    SizeBelow(s, |a|);
    if a == [] {
      assert s == {};
    } else {
      var n := |a| - 1;
      var head := a[..n];
      if n in s {
        var t := s - {n};
        assert s == t + {n};
        FrontIsBest(head, t);
        WorthDrop(head, s, n);
        assert head[..|t|] == a[..|t|];
        OneMore(a, |t|);
        assert a[|t|] >= a[n];
      } else {
        FrontIsBest(head, s);
        assert head[..|s|] == a[..|s|];
      }
    }
  }

  lemma NoneSum()
    ensures SumSeq([]) == 0
  {
  }

  lemma OneMore(a: seq<nat>, k: nat)
    requires k < |a|
    ensures SumSeq(a[..k + 1]) == SumSeq(a[..k]) + a[k]
  {
    assert a[..k + 1][..k] == a[..k];
  }

  lemma {:induction false} FrontGrows(a: seq<nat>, j: nat, k: nat)
    requires j <= k <= |a|
    ensures SumSeq(a[..j]) <= SumSeq(a[..k])
  {
    if j < k {
      FrontGrows(a, j, k - 1);
      assert a[..k][..k - 1] == a[..k - 1];
    }
  }

  /** A pick of k coins: no choice of fewer covers the need. */
  lemma FewestCoins(a: seq<nat>, need: nat, k: nat, s: set<nat>)
    requires Descending(a) && Reaches(a, need, k) && Positions(s, |a|) && Worth(a, s) >= need
    ensures |s| >= k
  {
    FrontIsBest(a, s);
  }

  /** A need is payable within the input limit exactly when the first fifteen
      coins, or all of them if fewer, cover it. */
  lemma PayableIff(a: seq<nat>, need: nat)
    requires Descending(a)
    ensures (exists s: set<nat> :: Positions(s, |a|) && |s| <= MAX_IN && Worth(a, s) >= need)
       <==> SumSeq(a[..if |a| < MAX_IN then |a| else MAX_IN]) >= need
  {
    var m := if |a| < MAX_IN then |a| else MAX_IN;
    if s: set<nat> :| Positions(s, |a|) && |s| <= MAX_IN && Worth(a, s) >= need {
      FrontIsBest(a, s);
      FrontGrows(a, |s|, m);
    }
    if SumSeq(a[..m]) >= need {
      var s := UpTo(m);
      FrontWorth(a, m);
      assert Positions(s, |a|) && |s| <= MAX_IN && Worth(a, s) >= need;
    }
  }

  function UpTo(m: nat): (r: set<nat>)
    ensures |r| == m && forall x: nat :: x in r <==> x < m
  {
    if m == 0 then {} else UpTo(m - 1) + {m - 1}
  }

  lemma {:induction false} FrontWorth(a: seq<nat>, m: nat)
    requires m <= |a|
    ensures Worth(a, UpTo(m)) == SumSeq(a[..m])
  {
    if a != [] {
      var head := a[..|a| - 1];
      if m == |a| {
        AllWorth(a, UpTo(m));
        assert a[..m] == a;
      } else {
        FrontWorth(head, m);
        assert head[..m] == a[..m];
      }
    }
  }

  lemma {:induction false} AllWorth(a: seq<nat>, s: set<nat>)
    requires forall x: nat :: x < |a| ==> x in s
    ensures Worth(a, s) == SumSeq(a)
  {
    if a != [] { AllWorth(a[..|a| - 1], s); }
  }

  // ── the sort ────────────────────────────────────────────────────────

  /** Largest first, equal amounts by nullifier. */
  predicate SortedCoins(coins: seq<Coin>) {
    forall i, j :: 0 <= i < j < |coins| ==>
      coins[i].amount > coins[j].amount || (coins[i].amount == coins[j].amount && coins[i].nul < coins[j].nul)
  }

  lemma {:induction false} UsableAscends(coins: seq<Coin>, kind: nat, n: nat)
    requires n <= |coins|
    ensures forall i, j :: 0 <= i < j < |UsableTo(coins, kind, n)| ==>
              UsableTo(coins, kind, n)[i] < UsableTo(coins, kind, n)[j]
  {
    if n > 0 { UsableAscends(coins, kind, n - 1); }
  }

  lemma PurseDescends(coins: seq<Coin>, kind: nat)
    requires SortedCoins(coins)
    ensures Descending(Purse(coins, kind))
  {
    UsableAscends(coins, kind, |coins|);
  }

  /** A payment is refused for its number of inputs only when no fifteen
      usable coins cover it. */
  lemma RefusedRightly(coins: seq<Coin>, kind: nat, need: nat, s: set<nat>)
    requires SortedCoins(coins) && |Purse(coins, kind)| > MAX_IN && SumSeq(Purse(coins, kind)[..MAX_IN]) < need
    requires Positions(s, |Purse(coins, kind)|) && |s| <= MAX_IN
    ensures Worth(Purse(coins, kind), s) < need
  {
    PurseDescends(coins, kind);
    PayableIff(Purse(coins, kind), need);
  }

  /** Every pick of a positive need takes the first usable coin, and no usable
      coin is larger: two payments built from the same coins conflict. */
  lemma TakesLargest(coins: seq<Coin>, kind: nat, need: nat, k: nat)
    requires SortedCoins(coins) && need > 0 && Reaches(Purse(coins, kind), need, k)
    ensures var idx := UsableTo(coins, kind, |coins|);
            && 0 < k <= |idx|
            && forall j :: 0 <= j < |coins| && Usable(coins[j], kind) ==> coins[j].amount <= coins[idx[0]].amount
  {
    var a := Purse(coins, kind);
    assert a[..0] == [];
    PurseDescends(coins, kind);
    forall j | 0 <= j < |coins| && Usable(coins[j], kind) ensures coins[j].amount <= a[0] {
      UsableHas(coins, kind, |coins|, j);
      var i :| 0 <= i < |a| && UsableTo(coins, kind, |coins|)[i] == j;
      assert a[0] >= a[i];
    }
  }

  lemma {:induction false} UsableHas(coins: seq<Coin>, kind: nat, n: nat, j: nat)
    requires j < n <= |coins| && Usable(coins[j], kind)
    ensures j in UsableTo(coins, kind, n)
  {
    if j < n - 1 { UsableHas(coins, kind, n - 1, j); }
  }

  // ── by the coins themselves ─────────────────────────────────────────

  /** What the coins of a set, by their places in the list, are worth. */
  ghost function CoinsWorth(coins: seq<Coin>, places: set<nat>): nat {
    if coins == [] then 0
    else CoinsWorth(coins[..|coins| - 1], places) + if |coins| - 1 in places then coins[|coins| - 1].amount else 0
  }

  /** Places of coins of the kind that no payment holds. */
  ghost predicate Free(coins: seq<Coin>, kind: nat, places: set<nat>) {
    forall j :: j in places ==> j < |coins| && !coins[j].used && coins[j].kind == kind
  }

  lemma UsableHead(coins: seq<Coin>, kind: nat, n: nat)
    requires n <= |coins|
    ensures UsableTo(coins[..n], kind, n) == UsableTo(coins, kind, n)
    decreases n
  {
    if n > 0 {
      UsableHead(coins, kind, n - 1);
      UsableHead(coins[..n], kind, n - 1);
      assert coins[..n][..n - 1] == coins[..n - 1];
    }
  }

  lemma PurseGrows(coins: seq<Coin>, kind: nat)
    requires coins != []
    ensures var n := |coins| - 1;
            Purse(coins, kind) ==
            Purse(coins[..n], kind) + if Usable(coins[n], kind) then [coins[n].amount] else []
  {
    UsableHead(coins, kind, |coins| - 1);
  }

  /** A free set of coins is a set of as many places of the purse, worth as
      much. */
  lemma {:induction false} InPurse(coins: seq<Coin>, kind: nat, places: set<nat>) returns (s: set<nat>)
    requires Free(coins, kind, places)
    ensures Positions(s, |Purse(coins, kind)|) && |s| == |places|
    ensures Worth(Purse(coins, kind), s) == CoinsWorth(coins, places)
    decreases |coins|
  {
    hide Purse;
    if coins == [] {
      assert places == {};
      s := {};
      NoWorth(Purse(coins, kind));
    } else {
      var n := |coins| - 1;
      var head, a := coins[..n], Purse(coins, kind);
      PurseGrows(coins, kind);
      var b := Purse(head, kind);
      s := InPurse(head, kind, places - {n});
      CoinsWorthDrop(head, places, n);
      if n in places {
        assert a == b + [coins[n].amount];
        WorthOfLast(b, s, coins[n].amount);
        s := s + {|b|};
        assert places == places - {n} + {n};
      } else {
        assert places - {n} == places;
        WorthWithoutLast(b, s, coins[n].amount);
      }
    }
  }

  lemma {:induction false} NoWorth(a: seq<nat>)
    ensures Worth(a, {}) == 0
    decreases |a|
  {
    if a != [] { NoWorth(a[..|a| - 1]); }
  }

  lemma WorthOfLast(b: seq<nat>, s: set<nat>, x: nat)
    requires Positions(s, |b|)
    ensures Worth(b + [x], s + {|b|}) == Worth(b, s) + x
  {
    assert (b + [x])[..|b|] == b;
    WorthAdd(b, s, |b|);
  }

  lemma WorthWithoutLast(b: seq<nat>, s: set<nat>, x: nat)
    requires Positions(s, |b|)
    ensures Worth(b + [x], s) == Worth(b, s) && Worth(b + [], s) == Worth(b, s)
  {
    assert (b + [x])[..|b|] == b && b + [] == b;
  }

  lemma {:induction false} CoinsWorthDrop(coins: seq<Coin>, places: set<nat>, x: nat)
    requires x >= |coins|
    ensures CoinsWorth(coins, places - {x}) == CoinsWorth(coins, places)
    decreases |coins|
  {
    if coins != [] { CoinsWorthDrop(coins[..|coins| - 1], places, x); }
  }

  lemma {:induction false} WorthAdd(a: seq<nat>, s: set<nat>, x: nat)
    requires x >= |a|
    ensures Worth(a, s + {x}) == Worth(a, s)
    decreases |a|
  {
    if a != [] { WorthAdd(a[..|a| - 1], s, x); }
  }

  /** What `Choose` answers, against every other choice of free coins: a pick
      has the fewest coins any choice could, and a payment is refused only when
      no choice, or none of at most fifteen coins, covers it. */
  lemma NoBetterChoice(coins: seq<Coin>, kind: nat, need: nat, places: set<nat>)
    requires SortedCoins(coins) && Free(coins, kind, places) && CoinsWorth(coins, places) >= need
    ensures forall k: nat :: Reaches(Purse(coins, kind), need, k) ==> k <= |places|
    ensures SumSeq(Purse(coins, kind)) >= need
    ensures |places| <= 15 && |Purse(coins, kind)| > 15 ==> SumSeq(Purse(coins, kind)[..15]) >= need
  {
    var a := Purse(coins, kind);
    var s := InPurse(coins, kind, places);
    PurseDescends(coins, kind);
    FrontIsBest(a, s);
    PrefixAtMost(a, |s|);
    if |places| <= 15 && |a| > 15 { FrontGrows(a, |s|, 15); }
  }
}
