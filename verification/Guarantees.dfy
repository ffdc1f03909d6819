/** What the ledger guarantees over every run. */
module Guarantees {
  import opened Sums
  import opened Ledger
  import opened Transactions
  import opened Settlement
  import opened Committee
  import opened Boundary
  import opened Invariant
  import opened BoundaryProofs
  import opened Runs

  // ── the supply ──────────────────────────────────────────────────────

  ghost predicate SameChain(s: State, t: State) {
    t.params == s.params && t.genesisSupply == s.genesisSupply && s.burned <= t.burned
  }

  lemma ItemChain(s: State, h: nat, t: Tx)
    ensures SameChain(s, ApplyItem(s, h, t))
  {
    hide Exec;
    ExecTouches(s, h, t);
  }

  lemma {:induction false} ItemsChain(s: State, h: nat, items: seq<Tx>)
    ensures SameChain(s, ApplyItems(s, h, items))
    decreases |items|
  {
    hide ApplyItem;
    if items != [] {
      ItemChain(s, h, items[0]);
      ItemsChain(ApplyItem(s, h, items[0]), h, items[1..]);
    }
  }

  lemma {:induction false} GraduateChain(s: State, h: nat, ks: set<Key>)
    requires GraduateAll(s, h, ks).Ok?
    ensures SameChain(s, GraduateAll(s, h, ks).value)
    decreases ks
  {
    if ks != {} {
      var v := Least(ks);
      GraduateChain(GraduateOne(s, h, v).value, h, ks - {v});
    }
  }

  lemma OpenChain(s: State, h: nat)
    requires IsBoundary(h) && Open(s, h).Ok?
    ensures SameChain(s, Open(s, h).value)
  {
    hide GraduateAll, Graduates, Credits, Accrue, RoundOk, RoundAt;
    var s1 := Settle(ActivateCommissions(s, h), h).value;
    var s2 := Payday(s1, h).value;
    GraduateChain(s2, h, Graduates(s2, h));
  }

  lemma RuleNChain(s: State, h: nat, tb: Tiebreak)
    requires h >= EPOCH && RuleN(s, h, tb).Ok?
    ensures SameChain(s, RuleN(s, h, tb).value)
  {
    hide CommitteeFor, Allowed, Recounted, BondedKeys, Due;
  }

  lemma CloseChain(s: State, h: nat, tb: Tiebreak)
    requires h >= EPOCH && Close(s, h, tb).Ok?
    ensures SameChain(s, Close(s, h, tb).value)
  {
    hide CommitteeFor, LiveCopy, SeatKeys;
  }

  lemma BoundaryChain(s: State, h: nat, tb: Tiebreak)
    requires IsBoundary(h) && RunBoundary(s, h, tb).Ok?
    ensures SameChain(s, RunBoundary(s, h, tb).value)
  {
    hide Open, RuleN, Close;
    OpenChain(s, h);
    var s2 := Open(s, h).value;
    RuleNChain(s2, h, tb);
    CloseChain(RuleN(s2, h, tb).value, h, tb);
  }

  lemma {:induction false} RunChain(s: State, blocks: seq<Block>)
    requires Run(s, blocks).Ok?
    ensures SameChain(s, Run(s, blocks).value)
    decreases |blocks|
  {
    hide ApplyItems, RunBoundary;
    if blocks != [] {
      var b := blocks[|blocks| - 1];
      RunChain(s, blocks[..|blocks| - 1]);
      var t := Run(s, blocks[..|blocks| - 1]).value;
      ItemsChain(t, t.height + 1, b.items);
      if IsBoundary(t.height + 1) { BoundaryChain(BeforeBoundary(t, b), t.height + 1, b.tb); }
    }
  }

  /** No run creates or loses a unit: what genesis issued is in a coin, a bond,
      a delegation, the pool, an accrual, an unclaimed allocation, a reserve,
      or burned. */
  lemma SupplyConserved(s: State, blocks: seq<Block>)
    requires Inv(s) && Run(s, blocks).Ok?
    ensures s.genesisSupply == Holdings(Run(s, blocks).value) + Run(s, blocks).value.burned
    ensures s.burned <= Run(s, blocks).value.burned
  {
    hide Holdings, Run;
    RunKeeps(s, blocks);
    RunChain(s, blocks);
    InvConserved(Run(s, blocks).value);
  }

  lemma InvConserved(s: State)
    requires Inv(s)
    ensures Conserved(s)
  {
  }

  // ── earning and spendable units are disjoint ────────────────────────

  /** Released principal that is still locked at t. */
  ghost function LockedStakes(coins: map<CoinId, Coin>, t: nat): map<CoinId, nat> {
    map c | c in coins && coins[c].origin.FromStake? && coins[c].unlock >= t :: coins[c].amount
  }

  ghost function LockedBonds(coins: map<CoinId, Coin>, t: nat): map<CoinId, nat> {
    map c | c in coins && coins[c].origin.FromBond? && coins[c].unlock >= t :: coins[c].amount
  }

  ghost function OfOrigin(coins: map<CoinId, Coin>, o: Origin): set<CoinId> {
    set c | c in coins && coins[c].origin == o
  }

  lemma SplitStakes(coins: map<CoinId, Coin>, t: nat, p: Pair)
    ensures Sum(LockedStakes(coins, t))
         == Sum(LockedStakes(coins - OfOrigin(coins, FromStake(p)), t)) + Sum(LockedFrom(coins, FromStake(p), t))
  {
    var m, o := LockedStakes(coins, t), OfOrigin(coins, FromStake(p));
    SumSplit(m, o);
    assert m - o == LockedStakes(coins - o, t);
    assert (map k | k in m && k in o :: m[k]) == LockedFrom(coins, FromStake(p), t);
  }

  lemma OthersKept(coins: map<CoinId, Coin>, o: Origin, q: Origin, t: nat)
    requires o != q
    ensures LockedFrom(coins - OfOrigin(coins, o), q, t) == LockedFrom(coins, q, t)
  {
  }

  /** Position by position coverage adds up. */
  lemma {:induction false} StakesBacked(stakes: map<Pair, nat>, live: map<Pair, nat>, coins: map<CoinId, Coin>, t: nat)
    requires forall p :: p in stakes ==> stakes[p] <= At(live, p) + Sum(LockedFrom(coins, FromStake(p), t))
    ensures Sum(stakes) <= Sum(live) + Sum(LockedStakes(coins, t))
    decreases |stakes|
  {
    if stakes != map[] {
      var p :| p in stakes;
      var rest, coins' := stakes - {p}, coins - OfOrigin(coins, FromStake(p));
      assert rest.Keys == stakes.Keys - {p};
      SumRemove(stakes, p);
      SumDrop(live, p);
      SplitStakes(coins, t, p);
      forall q | q in rest ensures rest[q] <= At(live - {p}, q) + Sum(LockedFrom(coins', FromStake(q), t)) {
        OthersKept(coins, FromStake(p), FromStake(q), t);
      }
      StakesBacked(rest, live - {p}, coins', t);
    }
  }

  lemma SplitBonds(coins: map<CoinId, Coin>, t: nat, v: Key)
    ensures Sum(LockedBonds(coins, t))
         == Sum(LockedBonds(coins - OfOrigin(coins, FromBond(v)), t)) + Sum(LockedFrom(coins, FromBond(v), t))
  {
    var m, o := LockedBonds(coins, t), OfOrigin(coins, FromBond(v));
    SumSplit(m, o);
    assert m - o == LockedBonds(coins - o, t);
    assert (map k | k in m && k in o :: m[k]) == LockedFrom(coins, FromBond(v), t);
  }

  lemma {:induction false} BondsBacked(bonds: map<Key, nat>, live: map<Key, nat>, coins: map<CoinId, Coin>, t: nat)
    requires forall v :: v in bonds ==> bonds[v] <= At(live, v) + Sum(LockedFrom(coins, FromBond(v), t))
    ensures Sum(bonds) <= Sum(live) + Sum(LockedBonds(coins, t))
    decreases |bonds|
  {
    if bonds != map[] {
      var v :| v in bonds;
      var rest, coins' := bonds - {v}, coins - OfOrigin(coins, FromBond(v));
      assert rest.Keys == bonds.Keys - {v};
      SumRemove(bonds, v);
      SumDrop(live, v);
      SplitBonds(coins, t, v);
      forall w | w in rest ensures rest[w] <= At(live - {v}, w) + Sum(LockedFrom(coins', FromBond(w), t)) {
        OthersKept(coins, FromBond(v), FromBond(w), t);
      }
      BondsBacked(rest, live - {v}, coins', t);
    }
  }

  /** The delegation rows add up to the validators' totals. */
  lemma {:induction false} PerValidator(totals: map<Key, nat>, stakes: map<Pair, nat>)
    requires forall v :: v in totals ==> totals[v] == Sum(StakesOn(stakes, v))
    requires forall p :: p in stakes ==> p.validator in totals
    ensures Sum(totals) == Sum(stakes)
    decreases |totals|
  {
    hide StakesOn;
    if totals == map[] {
      assert stakes == map[];
    } else {
      var v :| v in totals;
      var rest, others := totals - {v}, Without(stakes, v);
      assert rest.Keys == totals.Keys - {v};
      SumRemove(totals, v);
      SplitValidator(stakes, v);
      forall w | w in rest ensures rest[w] == Sum(StakesOn(others, w)) {
        OthersSame(stakes, v, w);
      }
      PerValidator(rest, others);
    }
  }

  lemma OthersSame(stakes: map<Pair, nat>, v: Key, w: Key)
    requires v != w
    ensures StakesOn(Without(stakes, v), w) == StakesOn(stakes, w)
  {
    StakesOnSame(stakes, Without(stakes, v), w);
  }

  lemma SplitValidator(stakes: map<Pair, nat>, v: Key)
    ensures Sum(stakes) == Sum(Without(stakes, v)) + Sum(StakesOn(stakes, v))
  {
    var own := set p | p in stakes && p.validator == v;
    var mine := map p | p in stakes && p in own :: stakes[p];
    SumSplit(stakes, own);
    assert stakes - own == Without(stakes, v);
    SumImage(StakesOn(stakes, v), d => Pair(v, d), (p: Pair) => p.delegator, mine);
  }

  lemma DelegatedTotal(s: State)
    requires RowsOk(s.validators, s.delegations, s.height)
    ensures Sum(Delegated(s.validators)) == Sum(s.delegations)
  {
    forall v | v in s.validators ensures s.validators[v].totalDelegated == Sum(StakesOn(s.delegations, v)) {
      assert RowOk(s.validators[v], s.delegations, v, s.height);
    }
    PerValidator(Delegated(s.validators), s.delegations);
  }

  /** The coins a block below t may spend. */
  ghost function Spendable(coins: map<CoinId, Coin>, t: nat): map<CoinId, nat> {
    map c | c in coins && coins[c].unlock < t :: coins[c].amount
  }

  lemma CoinsSplit(coins: map<CoinId, Coin>, t: nat)
    ensures Sum(Spendable(coins, t)) + Sum(LockedStakes(coins, t)) + Sum(LockedBonds(coins, t)) <= Sum(Amounts(coins))
  {
    var a := Spendable(coins, t);
    var b := Plus(a, LockedStakes(coins, t));
    SumPlus(a, LockedStakes(coins, t));
    SumPlus(b, LockedBonds(coins, t));
    SumMono(Plus(b, LockedBonds(coins, t)), Amounts(coins));
  }

  ghost function Earning(s: State, h: nat): Copy {
    if SourceCopy(h) in s.copies then s.copies[SourceCopy(h)] else Copy(map[], map[])
  }

  /** Position by position: what earns at boundary h is still staked, or
      locked for at least ten more epochs. */
  lemma EarningLocked(s: State, h: nat, p: Pair, v: Key)
    requires Inv(s) && h == s.height + 1 && IsBoundary(h)
    ensures SourceCopy(h) in s.copies
    ensures At(Earning(s, h).stakes, p)
         <= At(s.delegations, p) + Sum(LockedFrom(s.coins, FromStake(p), h + 10 * EPOCH))
    ensures At(Earning(s, h).bonds, v)
         <= At(Bonds(s.validators), v) + Sum(LockedFrom(s.coins, FromBond(v), h + 82 * EPOCH))
  {
    hide RowsOk, CountOk, IdsOk, AccrualOk, CopyFits, SnapshotsOk, Conserved, Sum, SeatsMatch, LockedFrom;
    LastBoundary(h);
    var b := SourceCopy(h);
    assert b == Back(h - EPOCH, 2 * EPOCH);
    assert StakeCovered(s.copies[b], b, s.coins, s.delegations, p);
    assert BondCovered(s.copies[b], b, s.coins, s.validators, v);
    LockedLater(s.coins, FromStake(p), h + 10 * EPOCH, b + 13 * EPOCH);
    LockedLater(s.coins, FromBond(v), h + 82 * EPOCH, b + 85 * EPOCH);
  }

  /** System-wide: the units that earn at boundary h and the units anybody can
      spend in the ten epochs around it are different units. */
  lemma EarningNotSpendable(s: State, h: nat)
    requires Inv(s) && h == s.height + 1 && IsBoundary(h)
    ensures Sum(Earning(s, h).stakes) + Sum(Earning(s, h).bonds) + Sum(Spendable(s.coins, h + 10 * EPOCH))
            + s.pool + Sum(s.accrual) + Sum(Unclaimed(s.allocations)) + s.reserves + s.burned
         <= s.genesisSupply
  {
    hide LockedFrom, LockedStakes, LockedBonds, Spendable, Sum, Amounts, Bonds, Delegated, Unclaimed, Inv, SourceCopy;
    var t := h + 10 * EPOCH;
    var c := Earning(s, h);
    forall p | p in c.stakes ensures c.stakes[p] <= At(s.delegations, p) + Sum(LockedFrom(s.coins, FromStake(p), t)) {
      EarningLocked(s, h, p, p.validator);
    }
    StakesBacked(c.stakes, s.delegations, s.coins, t);
    forall v | v in c.bonds ensures c.bonds[v] <= At(Bonds(s.validators), v) + Sum(LockedFrom(s.coins, FromBond(v), t)) {
      EarningLocked(s, h, Pair(v, v), v);
      LockedLater(s.coins, FromBond(v), t, h + 82 * EPOCH);
    }
    BondsBacked(c.bonds, Bonds(s.validators), s.coins, t);
    CoinsSplit(s.coins, t);
    InvRows(s);
    DelegatedTotal(s);
    InvConserved(s);
  }

  lemma LockedLater(coins: map<CoinId, Coin>, o: Origin, t: nat, u: nat)
    requires t <= u
    ensures Sum(LockedFrom(coins, o, u)) <= Sum(LockedFrom(coins, o, t))
  {
    SumMono(LockedFrom(coins, o, u), LockedFrom(coins, o, t));
  }

  lemma InvRows(s: State)
    requires Inv(s)
    ensures RowsOk(s.validators, s.delegations, s.height)
  {
  }

  // ── the validator sets ──────────────────────────────────────────────

  /** In every reachable state each seat of the set in effect, and of the set
      already frozen for the next epoch, still has its bond. */
  lemma SeatsStayBonded(s: State, blocks: seq<Block>, k: nat, i: nat)
    requires Inv(s) && Run(s, blocks).Ok?
    requires var b := EpochStart(s.height + |blocks|); k == b || k == b + EPOCH
    ensures var t := Run(s, blocks).value;
            k in t.snapshots
            && (i < |t.snapshots[k]| ==>
                  var e := t.snapshots[k][i];
                  e.key in t.validators && !t.validators[e.key].status.Unstaked?
                  && t.validators[e.key].selfStake == e.bond > 0)
  {
    hide Run, Inv, EpochStart;
    RunKeeps(s, blocks);
    InvSeats(Run(s, blocks).value, k, i);
  }

  lemma InvSeats(s: State, k: nat, i: nat)
    requires Inv(s) && (k == EpochStart(s.height) || k == EpochStart(s.height) + EPOCH)
    ensures k in s.snapshots && SeatsLive(s.validators, k, s.snapshots[k])
    ensures i < |s.snapshots[k]| ==>
              SeatLive(s.validators, k, s.snapshots[k][i]) && s.snapshots[k][i].bond > 0
  {
    hide CountOk, IdsOk, AccrualOk, CopiesOk, GatesOk, StakesCovered, BondsCovered, Conserved, Sum, EpochStart;
    if i < |s.snapshots[k]| {
      var e := s.snapshots[k][i];
      assert SeatLive(s.validators, k, e);
      assert RowOk(s.validators[e.key], s.delegations, e.key, s.height);
    }
  }

  /** A seat that has not asked to leave can be seated again. */
  lemma StayingSeat(s: State, h: nat, i: nat)
    requires Inv(s) && h == s.height + 1 && IsBoundary(h)
    ensures h in s.snapshots && h - EPOCH in s.copies
    ensures i < |s.snapshots[h]| && s.snapshots[h][i].key in s.validators
            && Bonded(s.validators[s.snapshots[h][i].key].status) ==>
              s.snapshots[h][i].key in Candidates(s, h + EPOCH, s.copies[h - EPOCH])
  {
    hide CountOk, IdsOk, AccrualOk, StakesCovered, BondsCovered, Conserved, RowsOk, Sum, EpochStart, StakesOn;
    LastBoundary(h);
    InvSeats(s, h, i);
    if i < |s.snapshots[h]| && Bonded(s.validators[s.snapshots[h][i].key].status) {
      var e := s.snapshots[h][i];
      assert SeatMatches(e, s.copies[Back(h - EPOCH, EPOCH)]);
      assert CopyFits(s.copies[h - EPOCH], h - EPOCH, s.validators);
    }
  }

  /** One seat of the set taking effect that stays is enough for the boundary
      to complete. */
  lemma OneStays(s: State, h: nat, tb: Tiebreak, i: nat)
    requires Inv(s) && h == s.height + 1 && IsBoundary(h)
    requires h in s.snapshots && i < |s.snapshots[h]| && s.snapshots[h][i].key in s.validators
    requires Bonded(s.validators[s.snapshots[h][i].key].status)
    ensures RunBoundary(s, h, tb).Ok?
  {
    hide Inv, Candidates, RunBoundary;
    StayingSeat(s, h, i);
    BoundaryKeeps(s, h, tb);
  }

  ghost predicate NobodyLeaves(s: State) {
    forall v :: v in s.validators ==> !s.validators[v].status.Retiring?
  }

  ghost predicate NoExits(blocks: seq<Block>) {
    forall i, j :: 0 <= i < |blocks| && 0 <= j < |blocks[i].items| ==> !blocks[i].items[j].Unstake?
  }

  lemma ItemStays(s: State, h: nat, t: Tx)
    requires NobodyLeaves(s) && !t.Unstake?
    ensures NobodyLeaves(ApplyItem(s, h, t))
  {
    hide FundingOk, Moved, PowerExit, DelegatorCount;
  }

  lemma {:induction false} ItemsStay(s: State, h: nat, items: seq<Tx>)
    requires NobodyLeaves(s) && forall j :: 0 <= j < |items| ==> !items[j].Unstake?
    ensures NobodyLeaves(ApplyItems(s, h, items))
    decreases |items|
  {
    hide ApplyItem, NobodyLeaves;
    if items != [] {
      ItemStays(s, h, items[0]);
      ItemsStay(ApplyItem(s, h, items[0]), h, items[1..]);
    }
  }

  lemma {:induction false} GraduateStays(s: State, h: nat, ks: set<Key>)
    requires NobodyLeaves(s) && GraduateAll(s, h, ks).Ok?
    ensures NobodyLeaves(GraduateAll(s, h, ks).value)
    decreases ks
  {
    if ks != {} {
      var v := Least(ks);
      GraduateStays(GraduateOne(s, h, v).value, h, ks - {v});
    }
  }

  lemma OpenStays(s: State, h: nat)
    requires IsBoundary(h) && NobodyLeaves(s) && Open(s, h).Ok?
    ensures NobodyLeaves(Open(s, h).value)
  {
    hide GraduateAll, Graduates, Settle, Payday;
    var s0 := ActivateCommissions(s, h);
    SettleOnly(s0, h);
    var s1 := Settle(s0, h).value;
    PaydayMoves(s1, h);
    var s2 := Payday(s1, h).value;
    GraduateStays(s2, h, Graduates(s2, h));
  }

  lemma RuleNStays(s: State, h: nat, tb: Tiebreak)
    requires h >= EPOCH && NobodyLeaves(s) && RuleN(s, h, tb).Ok?
    ensures NobodyLeaves(RuleN(s, h, tb).value)
  {
    hide CommitteeFor, Allowed, Charged, BondedKeys, Due;
  }

  lemma CloseRows(s: State, h: nat, tb: Tiebreak)
    requires h >= EPOCH && Close(s, h, tb).Ok?
    ensures Close(s, h, tb).value.validators == Flip(ResetAttendance(s), h).validators
  {
    hide CommitteeFor, LiveCopy, Flip, ResetAttendance;
  }

  lemma FlipStays(s: State, h: nat)
    requires NobodyLeaves(s)
    ensures NobodyLeaves(Flip(s, h))
  {
    hide SeatKeys;
  }

  lemma CloseStays(s: State, h: nat, tb: Tiebreak)
    requires h >= EPOCH && NobodyLeaves(s) && Close(s, h, tb).Ok?
    ensures NobodyLeaves(Close(s, h, tb).value)
  {
    hide Close, Flip;
    CloseRows(s, h, tb);
    FlipStays(ResetAttendance(s), h);
  }

  lemma BoundaryStays(s: State, h: nat, tb: Tiebreak)
    requires IsBoundary(h) && NobodyLeaves(s) && RunBoundary(s, h, tb).Ok?
    ensures NobodyLeaves(RunBoundary(s, h, tb).value)
  {
    hide Open, RuleN, Close, NobodyLeaves;
    OpenStays(s, h);
    var s2 := Open(s, h).value;
    RuleNStays(s2, h, tb);
    CloseStays(RuleN(s2, h, tb).value, h, tb);
  }

  /** While nobody leaves, the set taking effect is whole, so no boundary can
      be left without a next one. */
  lemma BlockStays(s: State, b: Block)
    requires Inv(s) && NobodyLeaves(s) && forall j :: 0 <= j < |b.items| ==> !b.items[j].Unstake?
    ensures ApplyBlock(s, b).Ok? && NobodyLeaves(ApplyBlock(s, b).value)
  {
    hide Inv, ApplyItems, RunBoundary;
    var h, t := s.height + 1, BeforeBoundary(s, b);
    ItemsStay(s, h, b.items);
    BeforeKeeps(s, b);
    if IsBoundary(h) {
      WholeSetStays(t, h, b.tb);
      BoundaryStays(t, h, b.tb);
    }
  }

  lemma WholeSetStays(s: State, h: nat, tb: Tiebreak)
    requires Inv(s) && NobodyLeaves(s) && h == s.height + 1 && IsBoundary(h)
    ensures RunBoundary(s, h, tb).Ok?
  {
    hide CountOk, IdsOk, AccrualOk, CopiesOk, GatesOk, StakesCovered, BondsCovered, Conserved, RowsOk, EpochStart, RunBoundary;
    LastBoundary(h);
    InvSeats(s, h, 0);
    OneStays(s, h, tb, 0);
  }

  /** With no voluntary exits, no run ever faults: the frozen set never
      becomes empty. */
  lemma {:induction false} NoExitNoFault(s: State, blocks: seq<Block>)
    requires Inv(s) && NobodyLeaves(s) && NoExits(blocks)
    ensures Run(s, blocks).Ok? && NobodyLeaves(Run(s, blocks).value)
    decreases |blocks|
  {
    hide Inv, ApplyBlock, NobodyLeaves;
    if blocks != [] {
      var head, b := blocks[..|blocks| - 1], blocks[|blocks| - 1];
      NoExitNoFault(s, head);
      RunKeeps(s, head);
      assert b == blocks[|blocks| - 1];
      BlockStays(Run(s, head).value, b);
    }
  }

  /** A boundary that retires anybody stores a next set with at least four
      members of power, which commits without any single one of them. */
  lemma RetirementSafe(s: State, h: nat, tb: Tiebreak, v: Key)
    requires Inv(s) && h == s.height + 1 && IsBoundary(h) && RunBoundary(s, h, tb).Ok?
    requires v in RunBoundary(s, h, tb).value.validators
    requires RunBoundary(s, h, tb).value.validators[v].status.AutoRetired?
    ensures var t := RunBoundary(s, h, tb).value;
            h + EPOCH in t.snapshots
            && var ps := Powers(t.snapshots[h + EPOCH]);
               && Powerful(ps) >= 4
               && (forall i :: 0 <= i < |ps| ==> SumSeq(ps) - ps[i] > SumSeq(ps) * 2 / 3)
  {
    hide Inv, Mid, Open, RuleN, Close, CommitteeFor, NoneAuto, BondedKept, Recount, Retire, ClearsFloor, Powers;
    OpenKeeps(s, h);
    var s2 := Open(s, h).value;
    MidCopy(s2, h);
    RuleNKeeps(s2, h, tb);
    var s3 := RuleN(s2, h, tb).value;
    CloseRetires(s3, h, tb, v);
    if s3 == Recount(s2, h) {
      RecountAuto(s2, h, v);
    } else {
      RetirementPreviewed(s2, h, tb);
      CloseIs(s3, h, tb);
      FloorMeaning(Powers(CommitteeFor(s3, h + EPOCH, tb)));
    }
  }

  lemma CloseRetires(s: State, h: nat, tb: Tiebreak, v: Key)
    requires h >= EPOCH && Close(s, h, tb).Ok? && v in Close(s, h, tb).value.validators
    ensures v in s.validators
    ensures Close(s, h, tb).value.validators[v].status.AutoRetired? <==> s.validators[v].status.AutoRetired?
  {
    hide CommitteeFor, LiveCopy, SeatKeys;
  }

  lemma RecountAuto(s: State, h: nat, v: Key)
    requires h >= EPOCH && NoneAuto(s.validators) && v in Recount(s, h).validators
    ensures !Recount(s, h).validators[v].status.AutoRetired?
  {
  }

  // ── the reward pool ─────────────────────────────────────────────────

  /** At least (65535/65536)^k of `from` is left in `to`. */
  ghost predicate Decayed(from: nat, to: nat, k: nat) {
    to * Pow(REWARD_DIVISOR, k) >= from * Pow(REWARD_DIVISOR - 1, k)
  }

  lemma DecayStep(from: nat, mid: nat, to: nat, k: nat)
    requires Decayed(from, mid, k) && to >= mid - mid / REWARD_DIVISOR
    ensures Decayed(from, to, k + 1)
  {
    var p, q := Pow(REWARD_DIVISOR, k), Pow(REWARD_DIVISOR - 1, k);
    assert to * REWARD_DIVISOR >= mid * (REWARD_DIVISOR - 1);
    MulMono(mid * (REWARD_DIVISOR - 1), to * REWARD_DIVISOR, p);
    MulMono(from * q, mid * p, REWARD_DIVISOR - 1);
    assert to * Pow(REWARD_DIVISOR, k + 1) == to * REWARD_DIVISOR * p;
    assert from * Pow(REWARD_DIVISOR - 1, k + 1) == from * q * (REWARD_DIVISOR - 1);
    assert mid * (REWARD_DIVISOR - 1) * p == mid * p * (REWARD_DIVISOR - 1);
  }

  lemma DecayGrow(from: nat, mid: nat, to: nat, k: nat)
    requires Decayed(from, mid, k) && to >= mid
    ensures Decayed(from, to, k)
  {
    MulMono(mid, to, Pow(REWARD_DIVISOR, k));
  }

  lemma ItemPool(s: State, h: nat, t: Tx)
    ensures ApplyItem(s, h, t).pool >= s.pool
  {
    hide FundingOk, Moved, PowerExit, DelegatorCount;
  }

  lemma {:induction false} ItemsPool(s: State, h: nat, items: seq<Tx>)
    ensures ApplyItems(s, h, items).pool >= s.pool
    decreases |items|
  {
    hide ApplyItem;
    if items != [] {
      ItemPool(s, h, items[0]);
      ItemsPool(ApplyItem(s, h, items[0]), h, items[1..]);
    }
  }

  /** What the distribution of boundary h credits, all owners together. */
  ghost function SettledAt(s: State, h: nat): nat
    requires IsBoundary(h)
  {
    var s0 := ActivateCommissions(s, h);
    if s0.pool / REWARD_DIVISOR == 0 || h - EPOCH !in s0.snapshots || !RoundOk(RoundAt(s0, h)) then 0
    else Sum(Credits(RoundAt(s0, h), |RoundAt(s0, h).seats|))
  }

  lemma SettledPool(s: State, h: nat)
    requires IsBoundary(h)
    ensures var s0 := ActivateCommissions(s, h);
            Settle(s0, h).Ok? ==> Settle(s0, h).value.pool + SettledAt(s, h) == s0.pool
  {
    hide ActivateCommissions, RoundAt, RoundOk, Credits, Accrue;
  }

  lemma OpenPool(s: State, h: nat)
    requires Inv(s) && h == s.height + 1 && IsBoundary(h)
    ensures Open(s, h).Ok? && s.pool - s.pool / REWARD_DIVISOR <= Open(s, h).value.pool <= s.pool
    ensures Open(s, h).value.pool + SettledAt(s, h) == s.pool
  {
    hide Inv, Settle, Payday, Graduate, ActivateCommissions, NotRetired, Mid, Exits, SettledAt;
    SettledPool(s, h);
    var s0 := ActivateCommissions(s, h);
    OpenKeeps(s, h);
    CommissionsKeep(s, h);
    ActivateOnly(s, h);
    SettleKeeps(s0, h);
    InvAccrual(s0);
    SettleMoves(s0, h);
    var s1 := Settle(s0, h).value;
    PaydayKeeps(s1, h);
    var s2 := Payday(s1, h).value;
    MidSet(s2, h);
    GraduatesExit(s2, h);
    NextNotRetired(s1, h);
    GraduateKeeps(s2, h);
  }

  lemma InvAccrual(s: State)
    requires Inv(s)
    ensures AccrualOk(s.accrual)
  {
  }

  lemma RuleNPool(s: State, h: nat, tb: Tiebreak)
    requires h >= EPOCH && RuleN(s, h, tb).Ok?
    ensures RuleN(s, h, tb).value.pool == s.pool
  {
    hide CommitteeFor, Allowed, Recounted, BondedKeys, Due;
  }

  lemma ClosePool(s: State, h: nat, tb: Tiebreak)
    requires h >= EPOCH && Close(s, h, tb).Ok?
    ensures Close(s, h, tb).value.pool == s.pool
  {
    hide CommitteeFor, LiveCopy, SeatKeys;
  }

  /** One boundary takes at most one 65536th of the pool. */
  lemma BoundaryPool(s: State, h: nat, tb: Tiebreak)
    requires Inv(s) && h == s.height + 1 && IsBoundary(h) && RunBoundary(s, h, tb).Ok?
    ensures s.pool - s.pool / REWARD_DIVISOR <= RunBoundary(s, h, tb).value.pool <= s.pool
    ensures RunBoundary(s, h, tb).value.pool + SettledAt(s, h) == s.pool
  {
    hide Inv, Open, RuleN, Close, SettledAt;
    OpenPool(s, h);
    var s2 := Open(s, h).value;
    RuleNPool(s2, h, tb);
    ClosePool(RuleN(s2, h, tb).value, h, tb);
  }

  lemma EpochCount(h: nat)
    ensures (h + 1) / EPOCH == h / EPOCH + (if IsBoundary(h + 1) then 1 else 0)
  {
  }

  /** Over any run the pool keeps at least (65535/65536)^k of what it started
      with, k being the number of boundaries crossed. */
  lemma {:induction false} PoolDecay(s: State, blocks: seq<Block>)
    requires Inv(s) && Run(s, blocks).Ok?
    ensures Decayed(s.pool, Run(s, blocks).value.pool, (s.height + |blocks|) / EPOCH - s.height / EPOCH)
    decreases |blocks|
  {
    hide Inv, Decayed, ApplyItems, RunBoundary, Candidates;
    if blocks == [] {
      DecayStart(s.pool);
    } else {
      var head, b := blocks[..|blocks| - 1], blocks[|blocks| - 1];
      PoolDecay(s, head);
      RunKeeps(s, head);
      var t := Run(s, head).value;
      var u, k := BeforeBoundary(t, b), t.height / EPOCH - s.height / EPOCH;
      ItemsPool(t, t.height + 1, b.items);
      DecayGrow(s.pool, t.pool, u.pool, k);
      EpochCount(t.height);
      if IsBoundary(t.height + 1) {
        BeforeKeeps(t, b);
        BoundaryPool(u, t.height + 1, b.tb);
        DecayStep(s.pool, u.pool, RunBoundary(u, t.height + 1, b.tb).value.pool, k);
      }
    }
  }

  lemma DecayStart(pool: nat)
    ensures Decayed(pool, pool, 0)
  {
  }

  /** The fee an item pays into the pool; a refused item and a claim pay none. */
  ghost function FeeOf(s: State, h: nat, t: Tx): nat {
    if Exec(s, h, t).Refused? || t.Claim? then 0 else t.f.fee
  }

  ghost function FeesOf(s: State, h: nat, items: seq<Tx>): nat
    decreases |items|
  {
    if items == [] then 0 else FeeOf(s, h, items[0]) + FeesOf(ApplyItem(s, h, items[0]), h, items[1..])
  }

  ghost function FeesIn(s: State, blocks: seq<Block>): nat
    requires Run(s, blocks).Ok?
    decreases |blocks|
  {
    if blocks == [] then 0
    else
      var head, b := blocks[..|blocks| - 1], blocks[|blocks| - 1];
      var t := Run(s, head).value;
      FeesIn(s, head) + FeesOf(t, t.height + 1, b.items)
  }

  /** Everything the distributions of the run credited. */
  ghost function CreditedIn(s: State, blocks: seq<Block>): nat
    requires Run(s, blocks).Ok?
    decreases |blocks|
  {
    if blocks == [] then 0
    else
      var head, b := blocks[..|blocks| - 1], blocks[|blocks| - 1];
      var t := Run(s, head).value;
      CreditedIn(s, head)
      + if IsBoundary(t.height + 1) then SettledAt(BeforeBoundary(t, b), t.height + 1) else 0
  }

  lemma ItemFee(s: State, h: nat, t: Tx)
    ensures ApplyItem(s, h, t).pool == s.pool + FeeOf(s, h, t)
  {
    hide Exec;
    ExecTouches(s, h, t);
  }

  lemma {:induction false} ItemsFees(s: State, h: nat, items: seq<Tx>)
    ensures ApplyItems(s, h, items).pool == s.pool + FeesOf(s, h, items)
    decreases |items|
  {
    hide ApplyItem, FeeOf;
    if items != [] {
      ItemFee(s, h, items[0]);
      ItemsFees(ApplyItem(s, h, items[0]), h, items[1..]);
    }
  }

  /** Over every run the pool is what it was, plus the fees, less the credits. */
  lemma {:induction false} PoolAccounts(s: State, blocks: seq<Block>)
    requires Inv(s) && Run(s, blocks).Ok?
    ensures Run(s, blocks).value.pool + CreditedIn(s, blocks) == s.pool + FeesIn(s, blocks)
    decreases |blocks|
  {
    hide Inv, ApplyItems, RunBoundary, Candidates, SettledAt, FeesOf;
    if blocks != [] {
      var head, b := blocks[..|blocks| - 1], blocks[|blocks| - 1];
      PoolAccounts(s, head);
      RunKeeps(s, head);
      var t := Run(s, head).value;
      ItemsFees(t, t.height + 1, b.items);
      if IsBoundary(t.height + 1) {
        BeforeKeeps(t, b);
        BoundaryPool(BeforeBoundary(t, b), t.height + 1, b.tb);
      }
    }
  }

  lemma DecayedLoss(from: nat, to: nat, k: nat)
    requires Decayed(from, to, k)
    ensures (from - to) * Pow(REWARD_DIVISOR, k) <= from * (Pow(REWARD_DIVISOR, k) - Pow(REWARD_DIVISOR - 1, k))
  {
    hide Pow;
    var x: int, y: int, p: int, q: int := from, to, Pow(REWARD_DIVISOR, k), Pow(REWARD_DIVISOR - 1, k);
    assert (x - y) * p == x * p - y * p;
    assert x * (p - q) == x * p - x * q;
  }

  /** Over any run in which no fee is paid, whatever claims and refused items
      it carries, the total credited over k boundaries is at most
      pool · (1 − (65535/65536)^k). */
  lemma CreditedAtMost(s: State, blocks: seq<Block>)
    requires Inv(s) && Run(s, blocks).Ok? && FeesIn(s, blocks) == 0
    ensures var k := (s.height + |blocks|) / EPOCH - s.height / EPOCH;
            CreditedIn(s, blocks) * Pow(REWARD_DIVISOR, k)
            <= s.pool * (Pow(REWARD_DIVISOR, k) - Pow(REWARD_DIVISOR - 1, k))
  {
    hide Inv, Run, Decayed, Pow, CreditedIn, FeesIn;
    var k := (s.height + |blocks|) / EPOCH - s.height / EPOCH;
    PoolDecay(s, blocks);
    PoolAccounts(s, blocks);
    DecayedLoss(s.pool, Run(s, blocks).value.pool, k);
  }
}
