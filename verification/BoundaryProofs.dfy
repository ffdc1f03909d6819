/** Every boundary step keeps what it must, and the boundary as a whole keeps
    the invariant. */
module BoundaryProofs {
  import opened Sums
  import opened Ledger
  import opened Settlement
  import opened Committee
  import opened Boundary
  import opened Invariant
  import opened Frames

  /** What holds between the steps of the boundary of block h, after the set
      for h has become the one that counts. */
  ghost predicate Mid(s: State, h: nat) {
    && IsBoundary(h)
    && ValidParams(s.params)
    && s.genesisSupply <= STORE_MAX
    && Conserved(s)
    && RowsOk(s.validators, s.delegations, h)
    && CountOk(s.validators, s.activeCount)
    && IdsOk(s.coins, h)
    && AccrualOk(s.accrual)
    && CopiesOk(s.copies, s.validators, h - EPOCH)
    && MidSnapshots(s.snapshots, s.validators, h)
    && Back(h, 2 * EPOCH) in s.copies
    && SeatsMatch(s.snapshots[h], s.copies[Back(h, 2 * EPOCH)])
    && StakesCovered(s.copies, s.coins, s.delegations)
    && BondsCovered(s.copies, s.coins, s.validators)
  }

  ghost predicate MidSnapshots(snaps: map<nat, seq<Entry>>, vals: map<Key, Validator>, h: nat)
    requires h >= EPOCH
  {
    && (forall k :: k in snaps ==> k <= h)
    && h - EPOCH in snaps && snaps[h - EPOCH] != []
    && h in snaps && SeatsLive(vals, h, snaps[h])
  }

  lemma LastBoundary(h: nat)
    requires IsBoundary(h)
    ensures EpochStart(h - 1) == h - EPOCH && EpochStart(h) == h && h >= EPOCH
  {
  }

  // ── commissions, distribution, payday ───────────────────────────────

  /** Same rows but for commissions. */
  lemma CommissionRows(s: State, h: nat)
    requires RowsOk(s.validators, s.delegations, s.height)
    ensures RowsOk(ActivateCommissions(s, h).validators, s.delegations, s.height)
  {
    hide Sum, StakesOn;
    var t := ActivateCommissions(s, h);
    forall v | v in t.validators ensures RowOk(t.validators[v], s.delegations, v, s.height) {
      assert RowOk(s.validators[v], s.delegations, v, s.height);
    }
  }

  lemma CommissionKin(s: State, h: nat)
    ensures var t := ActivateCommissions(s, h);
            && Kin(s.validators, t.validators) && SameStanding(s.validators, t.validators)
            && Bonds(t.validators) == Bonds(s.validators) && Delegated(t.validators) == Delegated(s.validators)
  {
  }

  lemma CommissionsKeep(s: State, h: nat)
    requires Inv(s)
    ensures Inv(ActivateCommissions(s, h))
  {
    hide RowsOk, CountOk, CopiesOk, SnapshotsOk, GatesOk, StakesCovered, BondsCovered, Kin, SameStanding, IdsOk, AccrualOk;
    hide Bonds, Delegated, Sum, Amounts, Unclaimed, EpochStart;
    var t := ActivateCommissions(s, h);
    CommissionRows(s, h);
    CommissionKin(s, h);
    StandingCount(s.validators, t.validators, s.activeCount);
    KinCopies(s.copies, EpochStart(s.height), s.validators, t.validators);
    KinSnapshots(s.snapshots, EpochStart(s.height), s.validators, t.validators);
    KinBonds(s.copies, s.coins, s.validators, t.validators);
  }

  /** The seats the distribution pays agree with the copy it reads. */
  lemma GateHolds(s: State, h: nat)
    requires IsBoundary(h)
    requires SnapshotsOk(s.snapshots, s.validators, h - EPOCH) && GatesOk(s.snapshots, s.copies, h - EPOCH)
    ensures h - EPOCH in s.snapshots && s.snapshots[h - EPOCH] != [] && SourceCopy(h) in s.copies
    ensures RoundOk(RoundAt(s, h))
  {
    hide SeatMatches, DistinctSeats, MeetsBar;
    var last, r := h - EPOCH, RoundAt(s, h);
    assert SourceCopy(h) == Back(last, 2 * EPOCH);
    forall i | 0 <= i < |r.seats| ensures SeatOk(r, i) {
      assert SeatMatches(s.snapshots[last][i], s.copies[Back(last, 2 * EPOCH)]);
      assert SeatLive(s.validators, last, s.snapshots[last][i]);
    }
  }

  lemma AccrualFits(s: State, k: Key)
    requires Conserved(s) && s.genesisSupply <= STORE_MAX && k in s.accrual
    ensures s.accrual[k] <= STORE_MAX
  {
    SumAtMost(s.accrual, k);
  }

  /** What the distribution needs of the invariant. */
  lemma SettleReads(s: State)
    requires Inv(s)
    ensures SnapshotsOk(s.snapshots, s.validators, EpochStart(s.height))
    ensures GatesOk(s.snapshots, s.copies, EpochStart(s.height))
    ensures Conserved(s) && s.genesisSupply <= STORE_MAX && AccrualOk(s.accrual)
  {
    hide RowsOk, CountOk, IdsOk, CopiesOk, SnapshotsOk, GatesOk, StakesCovered, BondsCovered, Conserved, EpochStart;
  }

  lemma SettleKeeps(s: State, h: nat)
    requires Inv(s) && h == s.height + 1 && IsBoundary(h)
    ensures Settle(s, h).Ok? && Inv(Settle(s, h).value) && Settle(s, h).value.height == s.height
  {
    hide Inv, SnapshotsOk, GatesOk, Conserved, Settle, RoundAt, RoundOk, EpochStart;
    LastBoundary(h);
    SettleReads(s);
    GateHolds(s, h);
    SettlePays(s, h);
    SettleMoves(s, h);
    SettledInv(s, Settle(s, h).value);
  }

  /** With the gate passed, the only fault left is an accrual past the store's
      integers, and no accrual exceeds the supply. */
  lemma SettlePays(s: State, h: nat)
    requires Conserved(s) && s.genesisSupply <= STORE_MAX && IsBoundary(h)
    requires h - EPOCH in s.snapshots && s.snapshots[h - EPOCH] != [] && RoundOk(RoundAt(s, h))
    ensures Settle(s, h).Ok?
  {
    hide Credits, SeatsOk, Amounts, Bonds, Delegated, Unclaimed, Sum, RoundAt;
    if s.pool / REWARD_DIVISOR != 0 {
      var r := RoundAt(s, h);
      CreditsFitPayout(s, h);
      var credits := Credits(r, |r.seats|);
      AccrueSum(s.accrual, credits);
      var t := s.(pool := s.pool - Sum(credits), accrual := Accrue(s.accrual, credits));
      forall k | k in t.accrual ensures t.accrual[k] <= STORE_MAX { AccrualFits(t, k); }
    }
  }

  lemma SettledInv(s: State, t: State)
    requires Inv(s) && t == s.(pool := t.pool, accrual := t.accrual)
    requires t.pool + Sum(t.accrual) == s.pool + Sum(s.accrual) && AccrualOk(t.accrual)
    ensures Inv(t)
  {
    hide RowsOk, CountOk, CopiesOk, SnapshotsOk, GatesOk, StakesCovered, BondsCovered, IdsOk, AccrualOk;
    hide Bonds, Delegated, Sum, Amounts, Unclaimed, EpochStart;
  }

  lemma RowsAge(vals: map<Key, Validator>, delegations: map<Pair, nat>, height: nat)
    requires RowsOk(vals, delegations, height)
    ensures RowsOk(vals, delegations, height + 1)
  {
    forall v | v in vals ensures RowOk(vals[v], delegations, v, height + 1) {
      assert RowOk(vals[v], delegations, v, height);
    }
  }

  lemma PaydayIds(s: State, h: nat)
    requires h >= EPOCH && IdsOk(s.coins, h - EPOCH) && AccrualOk(s.accrual)
    ensures Payday(s, h).Ok?
    ensures var t := Payday(s, h).value;
            && IdsOk(t.coins, h) && AccrualOk(t.accrual) && KeepsLocked(s.coins, t.coins, h)
            && (forall c :: c in t.coins && (c.BondOut? || c.DelegationOut?) ==> c.boundary < h)
  {
    hide PaydayCoins;
    assert forall k :: PaydayOut(h, k) !in s.coins;
    if IsPayday(s, h) { CoinsJoin(s.coins, h, s.accrual); }
  }

  lemma CoinsJoin(coins: map<CoinId, Coin>, h: nat, acc: map<Key, nat>)
    requires h >= EPOCH && IdsOk(coins, h - EPOCH)
    ensures var t := coins + PaydayCoins(h, acc);
            && IdsOk(t, h) && KeepsLocked(coins, t, h)
            && (forall c :: c in t && (c.BondOut? || c.DelegationOut?) ==> c.boundary < h)
  {
    hide PaydayCoins;
  }

  /** The payday's coins are new; from here on the boundary of h has begun. */
  lemma PaydayKeeps(s: State, h: nat)
    requires Inv(s) && h == s.height + 1 && IsBoundary(h)
    ensures Payday(s, h).Ok? && Mid(Payday(s, h).value, h)
    ensures var t := Payday(s, h).value;
            && t == s.(coins := t.coins, accrual := t.accrual)
            && (forall c :: c in t.coins && (c.BondOut? || c.DelegationOut?) ==> c.boundary < h)
  {
    hide RowsOk, CountOk, GatesOk, StakesCovered, BondsCovered, SeatLive, DistinctSeats, NotRetired, SeatsMatch, CopyFits;
    hide Bonds, Delegated, Sum, Amounts, Unclaimed, EpochStart, IdsOk, AccrualOk, KeepsLocked, Payday;
    LastBoundary(h);
    PaydayIds(s, h);
    var t := Payday(s, h).value;
    PaydayMoves(s, h);
    RowsAge(s.validators, s.delegations, s.height);
    GatesSplit(s, h);
    StakesCoverKept(s.copies, h - EPOCH, s.coins, t.coins, h, s.delegations);
    BondsCoverKept(s.copies, h - EPOCH, s.coins, t.coins, h, s.validators);
  }

  lemma GatesSplit(s: State, h: nat)
    requires h >= EPOCH && GatesOk(s.snapshots, s.copies, h - EPOCH)
    ensures h in s.snapshots && Back(h, 2 * EPOCH) in s.copies
    ensures SeatsMatch(s.snapshots[h], s.copies[Back(h, 2 * EPOCH)])
  {
    hide SeatsMatch;
  }

  // ── graduation ──────────────────────────────────────────────────────

  /** v may leave at h: it is exiting, it holds no seat of the set taking
      effect, and nothing of its was released at h yet. */
  ghost predicate Exits(s: State, h: nat, v: Key) {
    && h in s.snapshots && v in s.validators && Leaving(s.validators[v].status)
    && v !in SeatKeys(s.snapshots[h])
    && Unreleased(s.coins, h, v)
  }

  ghost predicate Unreleased(coins: map<CoinId, Coin>, h: nat, v: Key) {
    && BondOut(h, v) !in coins
    && (forall c :: c in coins && c.DelegationOut? && c.boundary == h ==> c.pair.validator != v)
  }

  lemma ReleaseSum(h: nat, v: Key, rows: map<Key, nat>)
    ensures Sum(Amounts(ReleaseCoins(h, v, rows))) == Sum(rows)
  {
    SumImage(rows, d => DelegationOut(h, Pair(v, d)),
             (c: CoinId) => if c.DelegationOut? then c.pair.delegator else Key(0),
             Amounts(ReleaseCoins(h, v, rows)));
  }

  lemma UnionLocked(a: map<CoinId, Coin>, b: map<CoinId, Coin>, o: Origin, t: nat)
    requires a.Keys !! b.Keys
    ensures Sum(LockedFrom(a + b, o, t)) == Sum(LockedFrom(a, o, t)) + Sum(LockedFrom(b, o, t))
  {
    var m := LockedFrom(a + b, o, t);
    SumSplit(m, b.Keys);
    assert m - b.Keys == LockedFrom(a, o, t);
    assert (map k | k in m && k in b.Keys :: m[k]) == LockedFrom(b, o, t);
  }

  /** Each released delegation is locked, in full, twelve epochs past h. */
  lemma ReleaseLocked(h: nat, v: Key, rows: map<Key, nat>, p: Pair, t: nat)
    requires p.validator == v && p.delegator in rows && t <= h + UNDELEGATE_LOCK_EPOCHS * EPOCH
    ensures rows[p.delegator] <= Sum(LockedFrom(ReleaseCoins(h, v, rows), FromStake(p), t))
  {
    SumAtMost(LockedFrom(ReleaseCoins(h, v, rows), FromStake(p), t), DelegationOut(h, p));
  }

  lemma WithoutSum(stakes: map<Pair, nat>, v: Key)
    ensures Sum(StakesOn(Without(stakes, v), v)) == 0
  {
    assert StakesOn(Without(stakes, v), v) == map[];
  }

  lemma GraduateRows(vals: map<Key, Validator>, stakes: map<Pair, nat>, v: Key, h: nat)
    requires RowsOk(vals, stakes, h) && v in vals && h >= EPOCH
    ensures RowsOk(vals[v := Graduated(vals[v])], Without(stakes, v), h)
  {
    hide StakesOn, Sum;
    WithoutSum(stakes, v);
    assert RowOk(vals[v], stakes, v, h);
    RowsSet(vals, stakes, Without(stakes, v), h, v, Graduated(vals[v]));
  }

  lemma GraduateCount(vals: map<Key, Validator>, n: nat, v: Key)
    requires CountOk(vals, n) && v in vals && Leaving(vals[v].status)
    ensures vals[v].status.Retiring? ==> n > 0
    ensures CountOk(vals[v := Graduated(vals[v])], if vals[v].status.Retiring? then n - 1 else n)
  {
    var vals' := vals[v := Graduated(vals[v])];
    assert CountedKeys(vals') == CountedKeys(vals) - {v};
    assert AutoRetiredKeys(vals') == AutoRetiredKeys(vals) - {v};
    assert v in CountedKeys(vals) || v in AutoRetiredKeys(vals);
  }

  lemma GraduateCopies(copies: map<nat, Copy>, last: nat, vals: map<Key, Validator>, v: Key)
    requires CopiesOk(copies, vals, last) && v in vals
    ensures CopiesOk(copies, vals[v := Graduated(vals[v])], last)
  {
    var vals' := vals[v := Graduated(vals[v])];
    forall b | b in copies ensures CopyFits(copies[b], b, vals') {
      assert CopyFits(copies[b], b, vals);
    }
  }

  lemma GraduateSeats(vals: map<Key, Validator>, k: nat, es: seq<Entry>, v: Key)
    requires SeatsLive(vals, k, es) && v in vals && v !in SeatKeys(es)
    ensures SeatsLive(vals[v := Graduated(vals[v])], k, es)
  {
    var vals' := vals[v := Graduated(vals[v])];
    forall i | 0 <= i < |es| ensures SeatLive(vals', k, es[i]) {
      assert SeatLive(vals, k, es[i]);
    }
  }

  lemma GraduateStake(c: Copy, b: nat, coins: map<CoinId, Coin>, row: Validator, stakes: map<Pair, nat>, h: nat, v: Key, p: Pair)
    requires StakeCovered(c, b, coins, stakes, p) && Unreleased(coins, h, v) && b + EPOCH <= h
    ensures StakeCovered(c, b, Released(coins, h, v, row, stakes), Without(stakes, v), p)
  {
    hide LockedFrom, Sum;
    var bond, rows, t := BondCoin(h, v, row), StakesOn(stakes, v), b + 13 * EPOCH;
    var coins1 := coins[BondOut(h, v) := bond];
    LockAdded(coins, BondOut(h, v), bond, FromStake(p), t);
    UnionLocked(coins1, ReleaseCoins(h, v, rows), FromStake(p), t);
    if p.validator == v && p in stakes { ReleaseLocked(h, v, rows, p, t); }
  }

  lemma GraduateStakes(s: State, h: nat, v: Key)
    requires h >= EPOCH && Retained(s.copies, h - EPOCH) && StakesCovered(s.copies, s.coins, s.delegations)
    requires v in s.validators && Unreleased(s.coins, h, v)
    ensures StakesCovered(s.copies, Released(s.coins, h, v, s.validators[v], s.delegations), Without(s.delegations, v))
  {
    hide StakeCovered, Released, Without, Unreleased;
    var coins2, stakes2 := Released(s.coins, h, v, s.validators[v], s.delegations), Without(s.delegations, v);
    forall b, p | b in s.copies ensures StakeCovered(s.copies[b], b, coins2, stakes2, p) {
      GraduateStake(s.copies[b], b, s.coins, s.validators[v], s.delegations, h, v, p);
    }
  }

  lemma ReleasedKeeps(coins: map<CoinId, Coin>, h: nat, v: Key, row: Validator, stakes: map<Pair, nat>)
    requires Unreleased(coins, h, v)
    ensures KeepsLocked(coins[BondOut(h, v) := BondCoin(h, v, row)], Released(coins, h, v, row, stakes), 0)
  {
    hide StakesOn;
  }

  lemma GraduateBond(c: Copy, b: nat, coins: map<CoinId, Coin>, vals: map<Key, Validator>, stakes: map<Pair, nat>, h: nat, v: Key, w: Key)
    requires BondCovered(c, b, coins, vals, w) && v in vals && Unreleased(coins, h, v) && b + EPOCH <= h
    ensures BondCovered(c, b, Released(coins, h, v, vals[v], stakes), vals[v := Graduated(vals[v])], w)
  {
    hide LockedFrom, Sum, Released;
    var bond, t := BondCoin(h, v, vals[v]), b + 85 * EPOCH;
    ReleasedKeeps(coins, h, v, vals[v], stakes);
    var coins1 := coins[BondOut(h, v) := bond];
    LockAdded(coins, BondOut(h, v), bond, FromBond(w), t);
    LockedKept(coins1, Released(coins, h, v, vals[v], stakes), 0, FromBond(w), t);
  }

  lemma GraduateBonds(s: State, h: nat, v: Key)
    requires h >= EPOCH && Retained(s.copies, h - EPOCH) && BondsCovered(s.copies, s.coins, s.validators)
    requires v in s.validators && Unreleased(s.coins, h, v)
    ensures BondsCovered(s.copies, Released(s.coins, h, v, s.validators[v], s.delegations),
                         s.validators[v := Graduated(s.validators[v])])
  {
    hide BondCovered, Released, Unreleased;
    var coins2, vals2 := Released(s.coins, h, v, s.validators[v], s.delegations), s.validators[v := Graduated(s.validators[v])];
    forall b, w | b in s.copies ensures BondCovered(s.copies[b], b, coins2, vals2, w) {
      GraduateBond(s.copies[b], b, s.coins, s.validators, s.delegations, h, v, w);
    }
  }

  ghost function Staked(coins: map<CoinId, Coin>, vals: map<Key, Validator>): nat {
    Sum(Amounts(coins)) + Sum(Bonds(vals)) + Sum(Delegated(vals))
  }

  /** The principal that leaves the rows is what the coins gain. */
  lemma GraduateSums(s: State, h: nat, v: Key)
    requires v in s.validators && Unreleased(s.coins, h, v)
    requires s.validators[v].totalDelegated == Sum(StakesOn(s.delegations, v))
    ensures Staked(Released(s.coins, h, v, s.validators[v], s.delegations),
                   s.validators[v := Graduated(s.validators[v])])
         == Staked(s.coins, s.validators)
  {
    hide StakesOn, Amounts, Bonds, Delegated, Sum;
    var bond, release := BondCoin(h, v, s.validators[v]), ReleaseCoins(h, v, StakesOn(s.delegations, v));
    AddCoin(s.coins, BondOut(h, v), bond);
    UnionSum(s.coins[BondOut(h, v) := bond], release);
    ReleaseSum(h, v, StakesOn(s.delegations, v));
    SetRowSums(s.validators, v, Graduated(s.validators[v]));
  }

  lemma GraduateIds(s: State, h: nat, v: Key)
    requires IdsOk(s.coins, h) && v in s.validators
    ensures IdsOk(Released(s.coins, h, v, s.validators[v], s.delegations), h)
  {
  }

  /** What GraduateOne leaves, said with the functions above. */
  lemma GraduateOneIs(s: State, h: nat, v: Key)
    requires v in s.validators && Unreleased(s.coins, h, v)
    requires RowOk(s.validators[v], s.delegations, v, h)
    requires s.validators[v].status.Retiring? ==> s.activeCount > 0
    ensures GraduateOne(s, h, v) ==
      Ok(s.(coins := Released(s.coins, h, v, s.validators[v], s.delegations),
            validators := s.validators[v := Graduated(s.validators[v])],
            delegations := Without(s.delegations, v),
            activeCount := if s.validators[v].status.Retiring? then s.activeCount - 1 else s.activeCount))
  {
    hide Sum;
  }

  lemma GraduateOneKeeps(s: State, h: nat, v: Key)
    requires Mid(s, h) && Exits(s, h, v)
    ensures v in s.validators && GraduateOne(s, h, v).Ok? && Mid(GraduateOne(s, h, v).value, h)
  {
    MidRow(s, h, v);
    GraduateCount(s.validators, s.activeCount, v);
    GraduateOneIs(s, h, v);
    GraduatedMid(s, h, v);
  }

  lemma MidRow(s: State, h: nat, v: Key)
    requires Mid(s, h) && v in s.validators
    ensures RowOk(s.validators[v], s.delegations, v, h)
  {
  }

  lemma GraduatedMid(s: State, h: nat, v: Key)
    requires Mid(s, h) && Exits(s, h, v) && GraduateOne(s, h, v).Ok?
    ensures Mid(GraduateOne(s, h, v).value, h)
  {
    hide RowsOk, CountOk, IdsOk, AccrualOk, StakesCovered, BondsCovered, SeatsLive, SeatsMatch, CopyFits;
    hide Sum, Amounts, Bonds, Delegated, Unclaimed, StakesOn, SeatKeys, GraduateOne, Released, ReleaseCoins, Unreleased;
    MidRow(s, h, v);
    GraduateIds(s, h, v);
    GraduateCount(s.validators, s.activeCount, v);
    GraduateOneIs(s, h, v);
    GraduateSums(s, h, v);
    GraduateRows(s.validators, s.delegations, v, h);
    GraduateCopies(s.copies, h - EPOCH, s.validators, v);
    GraduateSeats(s.validators, h, s.snapshots[h], v);
    GraduateStakes(s, h, v);
    GraduateBonds(s, h, v);
  }

  /** The rows still to graduate stay ready while one graduates. */
  lemma ExitsStay(s: State, h: nat, v: Key, w: Key)
    requires v in s.validators && GraduateOne(s, h, v).Ok?
    requires Exits(s, h, w) && w != v
    ensures Exits(GraduateOne(s, h, v).value, h, w)
  {
  }

  /** All graduations of a boundary go through, and only they change. */
  lemma {:induction false} GraduateAllKeeps(s: State, h: nat, ks: set<Key>)
    requires Mid(s, h) && forall v :: v in ks ==> Exits(s, h, v)
    ensures GraduateAll(s, h, ks).Ok? && Mid(GraduateAll(s, h, ks).value, h)
    ensures GraduateOnly(s, GraduateAll(s, h, ks).value, ks)
    decreases ks
  {
    hide Mid, Exits, GraduateOne;
    if ks != {} {
      var v := Least(ks);
      GraduateOneKeeps(s, h, v);
      var s1 := GraduateOne(s, h, v).value;
      forall w | w in ks - {v} ensures Exits(s1, h, w) { ExitsStay(s, h, v, w); }
      GraduateAllKeeps(s1, h, ks - {v});
      GraduateOneOnly(s, h, v);
    }
  }

  lemma GraduateOneOnly(s: State, h: nat, v: Key)
    requires v in s.validators && GraduateOne(s, h, v).Ok?
    ensures GraduateOnly(s, GraduateOne(s, h, v).value, {v})
  {
  }

  /** Rows outside `ks` are as they were, rows in `ks` are unstaked. */
  ghost predicate GraduateOnly(s: State, t: State, ks: set<Key>) {
    && t.validators.Keys == s.validators.Keys
    && (forall v :: v in s.validators && v !in ks ==> t.validators[v] == s.validators[v])
    && (forall v :: v in s.validators && v in ks ==>
          t.validators[v].status.Unstaked? && t.validators[v].activeSince == s.validators[v].activeSince)
    && t.copies == s.copies && t.snapshots == s.snapshots && t.params == s.params
    && t.attendance == s.attendance && t.height == s.height && t.pool == s.pool
    && t.accrual == s.accrual && t.allocations == s.allocations && t.reserves == s.reserves
    && t.burned == s.burned && t.genesisSupply == s.genesisSupply
  }

  /** The scan bound: at most 128 retiring rows and 128 auto-retired ones. */
  lemma ScanFits(s: State)
    requires CountOk(s.validators, s.activeCount)
    ensures |Exiting(s.validators)| <= 2 * MAX_VALIDATORS
  {
    var a, b := CountedKeys(s.validators), AutoRetiredKeys(s.validators);
    SubsetSize(Exiting(s.validators), a + b);
    assert |a + b| == |a| + |b| - |a * b|;
  }

  lemma {:induction false} SubsetSize(a: set<Key>, b: set<Key>)
    requires a <= b
    ensures |a| <= |b|
  {
    if a != {} {
      var x :| x in a;
      SubsetSize(a - {x}, b - {x});
    }
  }

  /** After graduation no auto-retired row is left, and the bonded rows are
      the ones the boundary found. */
  lemma GraduateKeeps(s: State, h: nat)
    requires Mid(s, h) && h in s.snapshots && NotRetired(s.validators, s.snapshots[h])
    requires forall v :: v in Graduates(s, h) ==> Exits(s, h, v)
    ensures Graduate(s, h).Ok? && Mid(Graduate(s, h).value, h)
    ensures GraduateOnly(s, Graduate(s, h).value, Graduates(s, h))
    ensures NoneAuto(Graduate(s, h).value.validators)
  {
    hide Exits, Mid, Graduates, Exiting, GraduateOnly, NoneAuto, GraduateAll, CountOk;
    MidSet(s, h);
    MidCount(s, h);
    ScanFits(s);
    GraduateAllKeeps(s, h, Graduates(s, h));
    NoneRetired(s, Graduate(s, h).value, h);
  }

  ghost predicate NoneAuto(vals: map<Key, Validator>) {
    forall v :: v in vals ==> !vals[v].status.AutoRetired?
  }

  lemma NoneRetired(s: State, t: State, h: nat)
    requires h in s.snapshots && NotRetired(s.validators, s.snapshots[h])
    requires GraduateOnly(s, t, Graduates(s, h))
    ensures NoneAuto(t.validators)
  {
    forall v | v in t.validators ensures !t.validators[v].status.AutoRetired? {
      if v !in Graduates(s, h) && v in SeatKeys(s.snapshots[h]) {
        var i :| 0 <= i < |s.snapshots[h]| && s.snapshots[h][i].key == v;
      }
    }
  }

  // ── rows that only change status ────────────────────────────────────

  /** Only the status and the miss counter differ, and nothing is unstaked. */
  ghost predicate Restatus(a: map<Key, Validator>, b: map<Key, Validator>) {
    a.Keys == b.Keys
    && forall v :: v in a ==>
         && b[v] == a[v].(status := b[v].status, missed := b[v].missed)
         && b[v].status.Unstaked? == a[v].status.Unstaked?
  }

  lemma RestatusRows(a: map<Key, Validator>, b: map<Key, Validator>, delegations: map<Pair, nat>, h: nat)
    requires RowsOk(a, delegations, h) && Restatus(a, b)
    ensures RowsOk(b, delegations, h)
  {
    hide Sum, StakesOn;
    forall v | v in b ensures RowOk(b[v], delegations, v, h) {
      assert RowOk(a[v], delegations, v, h);
    }
  }

  lemma RestatusSums(a: map<Key, Validator>, b: map<Key, Validator>)
    requires Restatus(a, b)
    ensures Kin(a, b) && Bonds(b) == Bonds(a) && Delegated(b) == Delegated(a)
  {
  }

  lemma RestatusKeeps(s: State, t: State, h: nat)
    requires Mid(s, h) && Restatus(s.validators, t.validators)
    requires t == s.(validators := t.validators, attendance := t.attendance, activeCount := t.activeCount)
    requires CountOk(t.validators, t.activeCount)
    ensures Mid(t, h)
  {
    hide RowsOk, CountOk, IdsOk, AccrualOk, CopiesOk, StakesCovered, BondsCovered, SeatsLive, SeatsMatch, Restatus, Kin;
    hide Sum, Amounts, Bonds, Delegated, Unclaimed;
    RestatusRows(s.validators, t.validators, s.delegations, h);
    RestatusSums(s.validators, t.validators);
    KinCopies(s.copies, h - EPOCH, s.validators, t.validators);
    KinSeats(s.validators, t.validators, h, s.snapshots[h]);
    KinBonds(s.copies, s.coins, s.validators, t.validators);
  }

  // ── Rule N ──────────────────────────────────────────────────────────

  lemma RecountKeeps(s: State, h: nat)
    requires h >= EPOCH && Mid(s, h)
    ensures Mid(Recount(s, h), h) && Restatus(s.validators, Recount(s, h).validators)
    ensures SameStanding(s.validators, Recount(s, h).validators)
  {
    hide Mid, MeetsBar, CountOk;
    var t := Recount(s, h);
    assert Restatus(s.validators, t.validators) && SameStanding(s.validators, t.validators);
    MidCount(s, h);
    StandingCount(s.validators, t.validators, s.activeCount);
    RestatusKeeps(s, t, h);
  }

  lemma MidCount(s: State, h: nat)
    requires Mid(s, h)
    ensures CountOk(s.validators, s.activeCount)
  {
  }

  lemma RetireCount(s: State)
    requires CountOk(s.validators, s.activeCount) && NoneAuto(s.validators)
    ensures |Due(s.validators)| <= s.activeCount
    ensures CountOk(Retire(s).validators, s.activeCount - |Due(s.validators)|)
  {
    var due, t := Due(s.validators), Retire(s);
    SubsetSize(due, CountedKeys(s.validators));
    assert CountedKeys(t.validators) == CountedKeys(s.validators) - due;
    assert AutoRetiredKeys(t.validators) == due;
  }

  lemma BondedFit(vals: map<Key, Validator>, n: nat)
    requires CountOk(vals, n)
    ensures |BondedKeys(vals)| <= MAX_VALIDATORS
  {
    SubsetSize(BondedKeys(vals), CountedKeys(vals));
  }

  lemma RetireKeeps(s: State, h: nat)
    requires Mid(s, h) && NoneAuto(s.validators)
    ensures |Due(s.validators)| <= s.activeCount
    ensures Mid(Retire(s).(activeCount := s.activeCount - |Due(s.validators)|), h)
    ensures Restatus(s.validators, Retire(s).validators)
  {
    hide Mid, CountOk;
    MidCount(s, h);
    RetireCount(s);
    RestatusKeeps(s, Retire(s).(activeCount := s.activeCount - |Due(s.validators)|), h);
  }

  lemma RuleNKeeps(s: State, h: nat, tb: Tiebreak)
    requires h >= EPOCH && Mid(s, h) && NoneAuto(s.validators)
    ensures RuleN(s, h, tb).Ok? && Mid(RuleN(s, h, tb).value, h)
    ensures Restatus(s.validators, RuleN(s, h, tb).value.validators)
  {
    hide CommitteeFor, Allowed, Recount, Retire, CountOk, Mid, BondedKeys, Due;
    MidCount(s, h);
    BondedFit(s.validators, s.activeCount);
    RecountKeeps(s, h);
    RetireKeeps(Recount(s, h), h);
    MidSet(s, h);
  }

  lemma MidSet(s: State, h: nat)
    requires Mid(s, h)
    ensures h >= EPOCH && h - EPOCH in s.snapshots && s.snapshots[h - EPOCH] != []
    ensures h in s.snapshots && s.snapshots[h] != []
  {
  }

  // ── flips, the next set, the frozen copy ────────────────────────────

  lemma FlipKeeps(s: State, h: nat)
    requires Mid(s, h)
    ensures Mid(Flip(ResetAttendance(s), h), h)
  {
    hide Mid, CountOk, SeatKeys;
    var t := Flip(ResetAttendance(s), h);
    assert Restatus(s.validators, t.validators) && SameStanding(s.validators, t.validators);
    MidCount(s, h);
    StandingCount(s.validators, t.validators, s.activeCount);
    RestatusKeeps(s, t, h);
  }

  /** Neither the attendance reset nor the flips change who is a candidate. */
  lemma FlipReads(s: State, h: nat, tb: Tiebreak)
    requires h >= EPOCH
    ensures CommitteeFor(Flip(ResetAttendance(s), h), h + EPOCH, tb) == CommitteeFor(s, h + EPOCH, tb)
  {
    hide CommitteeFor, SeatKeys;
    CommitteeReads(s, Flip(ResetAttendance(s), h), h + EPOCH, tb);
  }

  /** A seat won from copy(h - E) still has its bond: its holder was staked
      when that copy was frozen and has not left since. */
  lemma SeatFits(s: State, h: nat, c: Copy, e: Entry)
    requires h >= EPOCH && CopyFits(c, h - EPOCH, s.validators) && RowsOk(s.validators, s.delegations, h)
    requires SeatedFrom(s, h + EPOCH, c, e)
    ensures SeatLive(s.validators, h + EPOCH, e) && SeatMatches(e, c)
    ensures !s.validators[e.key].status.AutoRetired?
  {
    hide Sum;
    assert RowOk(s.validators[e.key], s.delegations, e.key, h);
    if e.key !in c.bonds {
      assert StakesOn(c.stakes, e.key) == map[];
      SumZero(StakesOn(c.stakes, e.key));
    }
  }

  lemma NextSet(s: State, h: nat, tb: Tiebreak)
    requires h >= EPOCH && CopiesOk(s.copies, s.validators, h - EPOCH) && RowsOk(s.validators, s.delegations, h)
    requires CommitteeFor(s, h + EPOCH, tb) != []
    ensures h - EPOCH in s.copies
    ensures SeatsLive(s.validators, h + EPOCH, CommitteeFor(s, h + EPOCH, tb))
    ensures NotRetired(s.validators, CommitteeFor(s, h + EPOCH, tb))
    ensures SeatsMatch(CommitteeFor(s, h + EPOCH, tb), s.copies[h - EPOCH])
  {
    hide RowsOk, CopyFits, Seatable, SeatOf, SeatedFrom, SeatMatches, SeatLive, CommitteeFrom;
    var c := s.copies[h - EPOCH];
    var next := CommitteeFrom(s, h + EPOCH, c, tb);
    CommitteeSeats(s, h + EPOCH, c, tb);
    forall i | 0 <= i < |next|
      ensures SeatLive(s.validators, h + EPOCH, next[i]) && SeatMatches(next[i], c)
      ensures next[i].key in s.validators ==> !s.validators[next[i].key].status.AutoRetired?
    {
      SeatFits(s, h, c, next[i]);
    }
  }

  lemma LiveCopyFits(s: State, h: nat)
    requires RowsOk(s.validators, s.delegations, h)
    ensures CopyFits(LiveCopy(s), h, s.validators)
  {
    hide StakesOn, Sum;
    var c := LiveCopy(s);
    forall v | v in s.validators ensures s.validators[v].status.Unstaked? <==> s.validators[v].selfStake == 0 {
      assert RowOk(s.validators[v], s.delegations, v, h);
    }
    forall p | p in c.stakes ensures p.validator in c.bonds {
      StakedRow(s, h, p);
    }
  }

  /** A validator somebody is staked on has not left. */
  lemma StakedRow(s: State, h: nat, p: Pair)
    requires RowsOk(s.validators, s.delegations, h) && p in s.delegations
    ensures p.validator in s.validators && s.validators[p.validator].selfStake > 0
  {
    assert RowOk(s.validators[p.validator], s.delegations, p.validator, h);
    SumAtMost(StakesOn(s.delegations, p.validator), p.delegator);
  }

  /** copy(h) written, the copies older than two epochs dropped. */
  function Rolled(copies: map<nat, Copy>, c: Copy, h: nat): map<nat, Copy> {
    var all := copies[h := c];
    map b | b in all && b + 2 * EPOCH >= h :: all[b]
  }

  lemma RolledCopies(s: State, h: nat)
    requires IsBoundary(h) && CopiesOk(s.copies, s.validators, h - EPOCH) && RowsOk(s.validators, s.delegations, h)
    ensures CopiesOk(Rolled(s.copies, LiveCopy(s), h), s.validators, h)
  {
    hide RowsOk, CopyFits, LiveCopy;
    LiveCopyFits(s, h);
    var copies := Rolled(s.copies, LiveCopy(s), h);
    forall b | b in copies ensures CopyFits(copies[b], b, s.validators) {}
  }

  lemma RolledCover(s: State, h: nat)
    requires StakesCovered(s.copies, s.coins, s.delegations) && BondsCovered(s.copies, s.coins, s.validators)
    ensures StakesCovered(Rolled(s.copies, LiveCopy(s), h), s.coins, s.delegations)
    ensures BondsCovered(Rolled(s.copies, LiveCopy(s), h), s.coins, s.validators)
  {
    hide LockedFrom, Sum;
    var copies := Rolled(s.copies, LiveCopy(s), h);
    forall b, p | b in copies ensures StakeCovered(copies[b], b, s.coins, s.delegations, p) {
      if b != h { assert StakeCovered(s.copies[b], b, s.coins, s.delegations, p); }
    }
    forall b, v | b in copies ensures BondCovered(copies[b], b, s.coins, s.validators, v) {
      if b != h { assert BondCovered(s.copies[b], b, s.coins, s.validators, v); }
    }
  }

  /** The state a boundary commits, given the next set. */
  ghost function Closed(s: State, h: nat, next: seq<Entry>): State {
    s.(snapshots := s.snapshots[h + EPOCH := next], copies := Rolled(s.copies, LiveCopy(s), h), height := h)
  }

  lemma ClosedKeeps(s: State, h: nat, tb: Tiebreak)
    requires h >= EPOCH && Mid(s, h) && CommitteeFor(s, h + EPOCH, tb) != []
    ensures Inv(Closed(s, h, CommitteeFor(s, h + EPOCH, tb)))
  {
    hide RowsOk, CountOk, IdsOk, AccrualOk, CopyFits, StakesCovered, BondsCovered, SeatsLive, SeatsMatch, NotRetired;
    hide Sum, Amounts, Bonds, Delegated, Unclaimed, CommitteeFor, LiveCopy;
    LastBoundary(h);
    NextSet(s, h, tb);
    RolledCopies(s, h);
    RolledCover(s, h);
  }

  lemma CloseIs(s: State, h: nat, tb: Tiebreak)
    requires h >= EPOCH && Mid(s, h)
    ensures var s4 := Flip(ResetAttendance(s), h);
            var next := CommitteeFor(s, h + EPOCH, tb);
            if next == [] then Close(s, h, tb).Fault?
            else Close(s, h, tb).Ok? && Close(s, h, tb).value.(height := h) == Closed(s4, h, next)
  {
    hide RowsOk, CountOk, IdsOk, AccrualOk, CopyFits, StakesCovered, BondsCovered, SeatsLive, SeatsMatch, NotRetired;
    hide Sum, Amounts, Bonds, Delegated, Unclaimed, CommitteeFor, Flip, ResetAttendance;
    FlipKeeps(s, h);
    FlipReads(s, h, tb);
  }

  /** The close of a boundary faults only when the next set is empty. */
  lemma CloseKeeps(s: State, h: nat, tb: Tiebreak)
    requires h >= EPOCH && Mid(s, h)
    ensures Close(s, h, tb).Ok? <==> CommitteeFor(s, h + EPOCH, tb) != []
    ensures Close(s, h, tb).Ok? ==> Inv(Close(s, h, tb).value.(height := h))
  {
    hide Mid, CommitteeFor, Close, Closed, Inv, Flip, ResetAttendance;
    CloseIs(s, h, tb);
    FlipKeeps(s, h);
    FlipReads(s, h, tb);
    if CommitteeFor(s, h + EPOCH, tb) != [] {
      ClosedKeeps(Flip(ResetAttendance(s), h), h, tb);
    }
  }

  // ── the whole boundary ──────────────────────────────────────────────

  lemma GraduatesExit(s: State, h: nat)
    requires h in s.snapshots
    requires forall c :: c in s.coins && (c.BondOut? || c.DelegationOut?) ==> c.boundary < h
    ensures forall v :: v in Graduates(s, h) ==> Exits(s, h, v)
  {
  }

  /** Up to Rule N a boundary never faults, and touches the bonded rows only
      in their commissions. */
  lemma OpenKeeps(s: State, h: nat)
    requires Inv(s) && h == s.height + 1 && IsBoundary(h)
    ensures Open(s, h).Ok? && Mid(Open(s, h).value, h) && NoneAuto(Open(s, h).value.validators)
    ensures BondedKept(s, Open(s, h).value)
  {
    hide Inv, Settle, Payday, Graduate, Mid, NoneAuto, ActivateCommissions, NotRetired, GraduateOnly, BondedKept;
    var s0 := ActivateCommissions(s, h);
    CommissionsKeep(s, h);
    ActivateOnly(s, h);
    SettleKeeps(s0, h);
    SettleOnly(s0, h);
    var s1 := Settle(s0, h).value;
    PaydayKeeps(s1, h);
    var s2 := Payday(s1, h).value;
    MidSet(s2, h);
    GraduatesExit(s2, h);
    NextNotRetired(s1, h);
    GraduateKeeps(s2, h);
    var s3 := Graduate(s2, h).value;
    BondedThrough(s, s0, s1, s2, s3, h);
  }

  lemma NextNotRetired(s: State, h: nat)
    requires Inv(s) && h == s.height + 1 && IsBoundary(h)
    ensures h in s.snapshots && NotRetired(s.validators, s.snapshots[h])
  {
    hide RowsOk, CountOk, IdsOk, AccrualOk, CopiesOk, GatesOk, StakesCovered, BondsCovered, SeatsLive, NotRetired, Conserved;
    LastBoundary(h);
  }

  lemma ActivateOnly(s: State, h: nat)
    ensures var t := ActivateCommissions(s, h);
            t == s.(validators := t.validators) && BondedKept(s, t)
  {
  }

  lemma SettleOnly(s: State, h: nat)
    requires IsBoundary(h) && Settle(s, h).Ok?
    ensures var t := Settle(s, h).value; t == s.(pool := t.pool, accrual := t.accrual)
  {
    hide Credits, Accrue, RoundOk, RoundAt, Sum;
  }

  /** The bonded rows, their tenure, and the frozen copies are the same. */
  ghost predicate BondedKept(s: State, t: State) {
    && t.params == s.params && t.copies == s.copies && t.validators.Keys == s.validators.Keys
    && forall v :: v in s.validators ==>
         && Bonded(t.validators[v].status) == Bonded(s.validators[v].status)
         && t.validators[v].activeSince == s.validators[v].activeSince
  }

  lemma BondedThrough(s: State, s0: State, s1: State, s2: State, s3: State, h: nat)
    requires BondedKept(s, s0)
    requires s1 == s0.(pool := s1.pool, accrual := s1.accrual)
    requires s2 == s1.(coins := s2.coins, accrual := s2.accrual)
    requires h in s2.snapshots && GraduateOnly(s2, s3, Graduates(s2, h))
    ensures BondedKept(s, s3)
  {
    forall v | v in s.validators
      ensures Bonded(s3.validators[v].status) == Bonded(s.validators[v].status)
      ensures s3.validators[v].activeSince == s.validators[v].activeSince
    {
      assert Bonded(s2.validators[v].status) ==> v !in Graduates(s2, h);
    }
  }

  lemma CommitteeEmpty(s: State, eStart: nat, tb: Tiebreak)
    requires eStart >= 2 * EPOCH && eStart - 2 * EPOCH in s.copies && s.params.seats > 0
    ensures CommitteeFor(s, eStart, tb) != [] <==> Candidates(s, eStart, s.copies[eStart - 2 * EPOCH]) != {}
  {
  }

  lemma CandidatesKept(s: State, t: State, eStart: nat, c: Copy)
    requires BondedKept(s, t)
    ensures Candidates(t, eStart, c) == Candidates(s, eStart, c)
  {
    hide FrozenTotal;
  }

  lemma MidCopy(s: State, h: nat)
    requires Mid(s, h)
    ensures h >= EPOCH && h - EPOCH in s.copies && s.params.seats > 0
  {
    hide RowsOk, CountOk, IdsOk, MidSnapshots, SeatsMatch, StakesCovered, BondsCovered, Conserved;
  }

  /** A retirement is made only on a previewed set that clears the floor, and
      that set is the one the close will store. */
  lemma RetirementPreviewed(s: State, h: nat, tb: Tiebreak)
    requires h >= EPOCH && RuleN(s, h, tb).Ok? && RuleN(s, h, tb).value != Recount(s, h)
    ensures var t := RuleN(s, h, tb).value;
            && t.validators == Retire(Recount(s, h)).validators && t.params == s.params && t.copies == s.copies
            && Allowed(CommitteeFor(t, h + EPOCH, tb))
  {
    hide CommitteeFor, Allowed, BondedKeys, Recounted;
    CommitteeReads(Retire(Recount(s, h)), RuleN(s, h, tb).value, h + EPOCH, tb);
  }

  lemma RecountBonded(s: State, h: nat)
    requires h >= EPOCH
    ensures BondedKept(s, Recount(s, h))
  {
    hide Charged;
  }

  lemma FewerCandidates(s: State, t: State, h: nat, c: Copy)
    requires h >= EPOCH && t.validators == Retire(Recount(s, h)).validators
    ensures Candidates(t, h + EPOCH, c) <= Candidates(s, h + EPOCH, c)
  {
    hide Charged, FrozenTotal;
  }

  /** Rule N changes who is a candidate only when the remaining set clears
      the floor, so it never leaves an empty one behind. */
  lemma RuleNCandidates(s: State, h: nat, tb: Tiebreak)
    requires h >= EPOCH && Mid(s, h) && NoneAuto(s.validators)
    ensures RuleN(s, h, tb).Ok? && h - EPOCH in s.copies
    ensures CommitteeFor(RuleN(s, h, tb).value, h + EPOCH, tb) != []
       <==> Candidates(s, h + EPOCH, s.copies[h - EPOCH]) != {}
  {
    hide Mid, NoneAuto, CommitteeFor, Candidates, RuleN, Recount, Retire;
    RuleNKeeps(s, h, tb);
    MidCopy(s, h);
    var s1, t, c := Recount(s, h), RuleN(s, h, tb).value, s.copies[h - EPOCH];
    if t == s1 {
      RecountBonded(s, h);
      CandidatesKept(s, s1, h + EPOCH, c);
      CommitteeEmpty(t, h + EPOCH, tb);
    } else {
      RetirementPreviewed(s, h, tb);
      FewerCandidates(s, t, h, c);
      CommitteeEmpty(t, h + EPOCH, tb);
    }
  }

  /** A boundary faults exactly when, of the validators bonded when its block
      began, none is tenured with stake in the copy frozen one epoch ago; in
      every other case the invariant holds again at its end. */
  lemma BoundaryKeeps(s: State, h: nat, tb: Tiebreak)
    requires Inv(s) && h == s.height + 1 && IsBoundary(h)
    ensures h - EPOCH in s.copies
    ensures RunBoundary(s, h, tb).Ok? <==> Candidates(s, h + EPOCH, s.copies[h - EPOCH]) != {}
    ensures RunBoundary(s, h, tb).Ok? ==> Inv(RunBoundary(s, h, tb).value.(height := h))
  {
    hide Inv, Mid, NoneAuto, CommitteeFor, Candidates, RuleN, Open, Close, BondedKept;
    OpenKeeps(s, h);
    var s2 := Open(s, h).value;
    MidCopy(s2, h);
    RuleNKeeps(s2, h, tb);
    RuleNCandidates(s2, h, tb);
    CloseKeeps(RuleN(s2, h, tb).value, h, tb);
    KeptCopy(s, s2, h);
  }

  lemma KeptCopy(s: State, t: State, h: nat)
    requires BondedKept(s, t) && h >= EPOCH && h - EPOCH in t.copies
    ensures h - EPOCH in s.copies
    ensures Candidates(t, h + EPOCH, t.copies[h - EPOCH]) == Candidates(s, h + EPOCH, s.copies[h - EPOCH])
  {
    CandidatesKept(s, t, h + EPOCH, s.copies[h - EPOCH]);
  }

  /** What a boundary leaves behind: a bonded row is ACTIVE exactly when it
      has a seat of the set taking effect, nobody has signed in the new epoch,
      the next set is there, and copy(h) is the balances as they stand. */
  lemma BoundaryLeaves(s: State, h: nat, tb: Tiebreak)
    requires IsBoundary(h) && RunBoundary(s, h, tb).Ok?
    ensures var t := RunBoundary(s, h, tb).value;
            && h in t.snapshots && h + EPOCH in t.snapshots && t.snapshots[h + EPOCH] != []
            && (forall v :: v in t.validators && Bonded(t.validators[v].status) ==>
                  (t.validators[v].status.Active? <==> v in SeatKeys(t.snapshots[h])))
            && (forall v :: v in t.attendance ==> t.attendance[v].signed == 0)
            && h in t.copies && t.copies[h] == LiveCopy(t)
  {
    hide Open, RuleN, CommitteeFor, SeatKeys;
    var s2 := Open(s, h).value;
    GraduateSnapshots(s, h);
    RuleNSnapshots(s2, h, tb);
    CloseLeaves(RuleN(s2, h, tb).value, h, tb);
  }

  lemma CloseLeaves(s: State, h: nat, tb: Tiebreak)
    requires h >= EPOCH && h in s.snapshots && Close(s, h, tb).Ok?
    ensures var t := Close(s, h, tb).value;
            && h in t.snapshots && h + EPOCH in t.snapshots && t.snapshots[h + EPOCH] != []
            && (forall v :: v in t.validators && Bonded(t.validators[v].status) ==>
                  (t.validators[v].status.Active? <==> v in SeatKeys(t.snapshots[h])))
            && (forall v :: v in t.attendance ==> t.attendance[v].signed == 0)
            && h in t.copies && t.copies[h] == LiveCopy(t)
  {
    hide CommitteeFor, SeatKeys;
  }

  lemma GraduateSnapshots(s: State, h: nat)
    requires IsBoundary(h) && Open(s, h).Ok?
    ensures h in s.snapshots && Open(s, h).value.snapshots == s.snapshots
  {
    hide Settle, Payday, GraduateAll, Graduates, ActivateCommissions;
    var s1 := Settle(ActivateCommissions(s, h), h).value;
    SettleSnapshots(ActivateCommissions(s, h), h);
    CommissionSnapshots(s, h);
    var s2 := Payday(s1, h).value;
    PaydaySnapshots(s1, h);
    AllSnapshots(s2, h, Graduates(s2, h));
  }

  lemma CommissionSnapshots(s: State, h: nat)
    ensures ActivateCommissions(s, h).snapshots == s.snapshots
  {
  }

  lemma SettleSnapshots(s: State, h: nat)
    requires IsBoundary(h) && Settle(s, h).Ok?
    ensures Settle(s, h).value.snapshots == s.snapshots
  {
    hide RoundAt, RoundOk, Credits, Accrue;
  }

  lemma PaydaySnapshots(s: State, h: nat)
    requires Payday(s, h).Ok?
    ensures Payday(s, h).value.snapshots == s.snapshots
  {
  }

  lemma {:induction false} AllSnapshots(s: State, h: nat, ks: set<Key>)
    requires GraduateAll(s, h, ks).Ok?
    ensures GraduateAll(s, h, ks).value.snapshots == s.snapshots
    decreases ks
  {
    hide StakesFree, Released, StakeSum;
    if ks != {} {
      var v := Least(ks);
      AllSnapshots(GraduateOne(s, h, v).value, h, ks - {v});
    }
  }

  lemma RuleNSnapshots(s: State, h: nat, tb: Tiebreak)
    requires h >= EPOCH && RuleN(s, h, tb).Ok?
    ensures RuleN(s, h, tb).value.snapshots == s.snapshots
  {
    hide CommitteeFor, Due, Recounted;
  }
}
