/** What a boundary pays to whom, written from the frozen rows and the votes
    alone: the distribution and the payday give every owner exactly that. */
module Rewards {
  import opened Sums
  import opened Ledger
  import opened Settlement

  // ── the reference ───────────────────────────────────────────────────

  /** At least 360 of the epoch's 720 blocks signed, one of them among the last
      120 before boundary h. */
  predicate Worked(att: map<Key, Attendance>, v: Key, h: nat) {
    v in att && 2 * att[v].signed >= 720 && att[v].last + 120 >= h
  }

  /** Whole coins of stake, the weight of a seat. */
  function Units(e: Entry): nat { e.total / 100_000_000 }

  function UnitsOf(es: seq<Entry>): nat {
    if es == [] then 0 else Units(es[0]) + UnitsOf(es[1..])
  }

  /** A seat's part of one 65536th of the pool. */
  function Portion(pool: nat, seats: seq<Entry>, i: nat): nat
    requires i < |seats|
  {
    if UnitsOf(seats) == 0 then 0 else (pool / 65536) * Units(seats[i]) / UnitsOf(seats)
  }

  /** What the bond earns, and the commission on the rest. */
  function BondPart(e: Entry, x: nat): nat { if e.total == 0 then 0 else x * e.bond / e.total }

  function FeePart(e: Entry, x: nat): nat {
    if BondPart(e, x) > x then 0 else (x - BondPart(e, x)) * e.commission / 10000
  }

  function Share(x: nat, part: nat, whole: nat): nat
    requires whole > 0
  {
    x * part / whole
  }

  /** What is left for a delegator whose frozen row is `stake`. */
  function StakePart(e: Entry, x: nat, stake: nat): nat {
    if e.total <= e.bond || BondPart(e, x) + FeePart(e, x) > x then 0
    else Share(x - BondPart(e, x) - FeePart(e, x), stake, e.total - e.bond)
  }

  /** The seats that served the epoch ending at h, and the copy they were
      built from. */
  function Served(s: State, h: nat): seq<Entry>
    requires h >= 720
  {
    if h - 720 in s.snapshots then s.snapshots[h - 720] else []
  }

  function Frozen(s: State, h: nat): Copy {
    var b := if h >= 2160 then h - 2160 else 0;
    if b in s.copies then s.copies[b] else Copy(map[], map[])
  }

  /** What seat i brings owner o at boundary h: nothing unless the seat still
      has a row and worked. */
  function Brings(s: State, h: nat, i: nat, o: Key): nat
    requires h >= 720 && i < |Served(s, h)|
  {
    var e := Served(s, h)[i];
    var x, p := Portion(s.pool, Served(s, h), i), Pair(e.key, o);
    if e.key !in s.validators || !Worked(s.attendance, e.key, h) then 0
    else (if o == e.key then BondPart(e, x) + FeePart(e, x) else 0)
         + (if p in Frozen(s, h).stakes then StakePart(e, x, Frozen(s, h).stakes[p]) else 0)
  }

  /** What the first n seats bring owner o. */
  function Earned(s: State, h: nat, n: nat, o: Key): nat
    requires h >= 720 && n <= |Served(s, h)|
  {
    if n == 0 then 0 else Earned(s, h, n - 1, o) + Brings(s, h, n - 1, o)
  }

  function Reward(s: State, h: nat, o: Key): nat
    requires h >= 720
  {
    Earned(s, h, |Served(s, h)|, o)
  }

  // ── the distribution pays it ────────────────────────────────────────

  lemma WorkedIs(att: map<Key, Attendance>, v: Key, h: nat)
    requires h >= 720
    ensures MeetsBar(att, v, h) <==> Worked(att, v, h)
  {
  }

  lemma {:induction false} UnitsAdd(a: seq<Entry>, e: Entry)
    ensures UnitsOf(a + [e]) == UnitsOf(a) + Units(e)
    decreases |a|
  {
    if a == [] {
      assert a + [e] == [e] && [e][1..] == [];
    } else {
      UnitsAdd(a[1..], e);
      assert (a + [e])[1..] == a[1..] + [e];
    }
  }

  lemma {:induction false} UnitsArePower(es: seq<Entry>)
    ensures UnitsOf(es) == TotalPower(es)
    decreases |es|
  {
    if es != [] {
      var n := |es| - 1;
      UnitsArePower(es[..n]);
      UnitsAdd(es[..n], es[n]);
      assert es == es[..n] + [es[n]];
      assert Powers(es)[..n] == Powers(es[..n]);
    }
  }

  lemma PortionIs(s: State, h: nat, i: nat)
    requires IsBoundary(h) && h - EPOCH in s.snapshots && i < |s.snapshots[h - EPOCH]|
    ensures RoundAt(s, h).shares[i] == Portion(s.pool, s.snapshots[h - EPOCH], i)
  {
    UnitsArePower(s.snapshots[h - EPOCH]);
  }

  /** One paid seat, seen from one owner. */
  lemma MemberPays(e: Entry, x: nat, stakes: map<Pair, nat>, o: Key)
    requires 0 < e.total && e.bond <= e.total && e.commission <= COMMISSION_MAX
    requires Sum(StakesOn(stakes, e.key)) == e.total - e.bond
    ensures At(MemberCredits(e.key, SplitOf(e, x), StakesOn(stakes, e.key)), o)
         == (if o == e.key then BondPart(e, x) + FeePart(e, x) else 0)
            + (if Pair(e.key, o) in stakes then StakePart(e, x, stakes[Pair(e.key, o)]) else 0)
  {
    hide Sum;
    var p, rows := SplitOf(e, x), StakesOn(stakes, e.key);
    assert p.base == BondPart(e, x) && p.commission == FeePart(e, x);
    assert At(StakerCredits(p.net, rows), o)
        == if Pair(e.key, o) in stakes then StakePart(e, x, stakes[Pair(e.key, o)]) else 0;
  }

  lemma NoPortion(e: Entry, stake: nat)
    ensures BondPart(e, 0) == 0 && FeePart(e, 0) == 0 && StakePart(e, 0, stake) == 0
  {
  }

  lemma SeatPays(s: State, h: nat, i: nat, o: Key)
    requires IsBoundary(h) && h - EPOCH in s.snapshots && i < |s.snapshots[h - EPOCH]|
    requires SeatOk(RoundAt(s, h), i)
    ensures At(SeatCredits(RoundAt(s, h), i), o) == Brings(s, h, i, o)
  {
    hide MemberCredits, MeetsBar, Worked, Shares, BondPart, FeePart, StakePart, Sum, Portion, TotalPower;
    var r, e := RoundAt(s, h), s.snapshots[h - EPOCH][i];
    PortionIs(s, h, i);
    WorkedIs(s.attendance, e.key, h);
    if Paid(r, i) {
      MemberPays(e, r.shares[i], r.copy.stakes, o);
    } else if r.shares[i] == 0 {
      NoPortion(e, if Pair(e.key, o) in r.copy.stakes then r.copy.stakes[Pair(e.key, o)] else 0);
    }
  }

  lemma {:induction false} SeatsPay(s: State, h: nat, n: nat, o: Key)
    requires IsBoundary(h) && h - EPOCH in s.snapshots && SeatsOk(RoundAt(s, h), n)
    ensures n <= |Served(s, h)| && At(Credits(RoundAt(s, h), n), o) == Earned(s, h, n, o)
    decreases n
  {
    hide SeatCredits, Brings, SeatOk, RoundAt;
    SeatsServed(s, h);
    if n > 0 {
      SeatsPay(s, h, n - 1, o);
      assert SeatOk(RoundAt(s, h), n - 1);
      SeatPays(s, h, n - 1, o);
    }
  }

  lemma SeatsServed(s: State, h: nat)
    requires h >= EPOCH && h - EPOCH in s.snapshots
    ensures RoundAt(s, h).seats == Served(s, h) && |RoundAt(s, h).shares| == |Served(s, h)|
  {
  }

  lemma {:induction false} NothingToShare(s: State, h: nat, n: nat, o: Key)
    requires h >= 720 && n <= |Served(s, h)| && s.pool / 65536 == 0
    ensures Earned(s, h, n, o) == 0
    decreases n
  {
    if n > 0 {
      NothingToShare(s, h, n - 1, o);
      var e, p := Served(s, h)[n - 1], Pair(Served(s, h)[n - 1].key, o);
      NoPortion(e, if p in Frozen(s, h).stakes then Frozen(s, h).stakes[p] else 0);
    }
  }

  /** Every owner is credited exactly its reward, to the unit. */
  lemma RewardPaid(s: State, h: nat, o: Key)
    requires IsBoundary(h) && Settle(s, h).Ok?
    ensures At(Settle(s, h).value.accrual, o) == At(s.accrual, o) + Reward(s, h, o)
  {
    hide RoundAt, Credits, Earned, SeatsOk;
    if s.pool / REWARD_DIVISOR == 0 {
      NothingToShare(s, h, |Served(s, h)|, o);
    } else {
      SeatsServed(s, h);
      SeatsPay(s, h, |Served(s, h)|, o);
    }
  }

  // ── who earns and who does not ──────────────────────────────────────

  /** Seat i is the owner's own, or the owner has a frozen stake on it. */
  predicate Concerns(s: State, h: nat, i: nat, o: Key)
    requires h >= 720 && i < |Served(s, h)|
  {
    Served(s, h)[i].key == o || Pair(Served(s, h)[i].key, o) in Frozen(s, h).stakes
  }

  /** No row, fewer than 360 blocks, or none of the last 120. */
  predicate Missed(att: map<Key, Attendance>, v: Key, h: nat) {
    v !in att || 2 * att[v].signed < 720 || att[v].last < h - 120
  }

  lemma {:induction false} MissedBrings(s: State, h: nat, n: nat, o: Key)
    requires h >= 720 && n <= |Served(s, h)|
    requires forall i :: 0 <= i < |Served(s, h)| && Concerns(s, h, i, o) ==>
      Missed(s.attendance, Served(s, h)[i].key, h)
    ensures Earned(s, h, n, o) == 0
    decreases n
  {
    if n > 0 {
      MissedBrings(s, h, n - 1, o);
      assert Concerns(s, h, n - 1, o) ==> Missed(s.attendance, Served(s, h)[n - 1].key, h);
    }
  }

  /** Whoever's seats all missed, its own and those it has staked on, is
      credited nothing. */
  lemma MissedEarnsNothing(s: State, h: nat, o: Key)
    requires IsBoundary(h) && Settle(s, h).Ok?
    requires forall i :: 0 <= i < |Served(s, h)| && Concerns(s, h, i, o) ==>
      Missed(s.attendance, Served(s, h)[i].key, h)
    ensures At(Settle(s, h).value.accrual, o) == At(s.accrual, o)
  {
    hide Settle;
    RewardPaid(s, h, o);
    MissedBrings(s, h, |Served(s, h)|, o);
  }

  lemma {:induction false} EarnedAtLeast(s: State, h: nat, n: nat, i: nat, o: Key)
    requires h >= 720 && i < n <= |Served(s, h)|
    ensures Brings(s, h, i, o) <= Earned(s, h, n, o)
    decreases n
  {
    hide Brings;
    if i < n - 1 { EarnedAtLeast(s, h, n - 1, i, o); }
  }

  /** A seat with a row that did not miss is credited: its validator the bond's
      part and the commission, a delegator its part of the rest. */
  lemma WorkedEarns(s: State, h: nat, i: nat, o: Key)
    requires IsBoundary(h) && Settle(s, h).Ok? && i < |Served(s, h)|
    requires Served(s, h)[i].key in s.validators && !Missed(s.attendance, Served(s, h)[i].key, h)
    ensures var e, x := Served(s, h)[i], Portion(s.pool, Served(s, h), i);
            && (o == e.key ==>
                  At(Settle(s, h).value.accrual, o) >= At(s.accrual, o) + BondPart(e, x) + FeePart(e, x))
            && (Pair(e.key, o) in Frozen(s, h).stakes ==>
                  At(Settle(s, h).value.accrual, o)
                  >= At(s.accrual, o) + StakePart(e, x, Frozen(s, h).stakes[Pair(e.key, o)]))
  {
    hide Settle, Earned, BondPart, FeePart, StakePart, Portion;
    RewardPaid(s, h, o);
    EarnedAtLeast(s, h, |Served(s, h)|, i, o);
  }
}
