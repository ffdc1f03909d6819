/** Every item, applied or refused, keeps the invariant. */
module ItemProofs {
  import opened Sums
  import opened Ledger
  import opened Transactions
  import opened Invariant
  import opened Frames

  /** A funded leg keeps everything but the supply equation, which it leaves
      short by exactly `need`. */
  lemma PayKeeps(s: State, f: Funding, minOut: nat, need: nat)
    requires Inv(s) && FundingOk(s.coins, s.height + 1, f, minOut, need)
    ensures var t := Pay(s, f);
            && t.genesisSupply == Holdings(t) + t.burned + need
            && IdsOk(t.coins, EpochStart(s.height))
            && StakesCovered(t.copies, t.coins, t.delegations)
            && BondsCovered(t.copies, t.coins, t.validators)
  {
    PaySum(s.coins, s.height + 1, f, minOut, need);
    PayCoins(s.coins, s.height + 1, f, minOut, need);
    StakesCoverKept(s.copies, EpochStart(s.height), s.coins, Moved(s.coins, f), s.height + 1, s.delegations);
    BondsCoverKept(s.copies, EpochStart(s.height), s.coins, Moved(s.coins, f), s.height + 1, s.validators);
  }

  // ── the items ───────────────────────────────────────────────────────

  /** A funded item that rewrites one row, keeping its bond and its
      delegation rows. */
  lemma TweakKeeps(s: State, f: Funding, v: Key, row: Validator)
    requires Inv(s) && FundingOk(s.coins, s.height + 1, f, 0, 0)
    requires v in s.validators && Tweak(s.validators[v], row) && Steady(s.validators[v], row)
    requires RowOk(row, s.delegations, v, s.height)
    ensures Inv(Pay(s, f).(validators := s.validators[v := row]))
  {
    hide Sum, Amounts, Bonds, Delegated, Unclaimed, StakesOn, Delegators, IdsOk, AccrualOk, EpochStart, Moved;
    hide RowsOk, CountOk, CopiesOk, SnapshotsOk, GatesOk, StakesCovered, BondsCovered, FundingOk;
    InvRow(s, v);
    PayKeeps(s, f, 0, 0);
    SetRowSums(s.validators, v, row);
    RowsTweak(s.validators, s.delegations, s.height, v, row);
    KinSet(s.validators, v, row);
    StandingCount(s.validators, s.validators[v := row], s.activeCount);
    KinCopies(s.copies, EpochStart(s.height), s.validators, s.validators[v := row]);
    KinSnapshots(s.snapshots, EpochStart(s.height), s.validators, s.validators[v := row]);
    KinBonds(s.copies, Moved(s.coins, f), s.validators, s.validators[v := row]);
  }

  lemma InvRow(s: State, v: Key)
    requires Inv(s) && v in s.validators
    ensures RowOk(s.validators[v], s.delegations, v, s.height)
  {
  }

  lemma UnstakeKeeps(s: State, t: Tx)
    requires Inv(s) && t.Unstake? && ExecUnstake(s, s.height + 1, t).Applied?
    ensures Inv(ExecUnstake(s, s.height + 1, t).state)
  {
    hide Inv, FundingOk;
    InvRow(s, t.validator);
    TweakKeeps(s, t.f, t.validator, s.validators[t.validator].(status := Retiring));
  }

  lemma SetCommissionKeeps(s: State, t: Tx)
    requires Inv(s) && t.SetCommission? && ExecSetCommission(s, s.height + 1, t).Applied?
    ensures Inv(ExecSetCommission(s, s.height + 1, t).state)
  {
    hide Inv, FundingOk;
    InvRow(s, t.validator);
    TweakKeeps(s, t.f, t.validator, ExecSetCommission(s, s.height + 1, t).state.validators[t.validator]);
  }

  lemma DelegateRow(v: Validator, stakes: map<Pair, nat>, height: nat, p: Pair, amount: nat)
    requires RowOk(v, stakes, p.validator, height) && !v.status.Unstaked?
    ensures RowOk(v.(totalDelegated := v.totalDelegated + amount, externalDelegated := v.externalDelegated + amount),
                  stakes[p := At(stakes, p) + amount], p.validator, height)
  {
    var x := At(stakes, p) + amount;
    StakesOnSet(stakes, p, x);
    SumSet(StakesOn(stakes, p.validator), p.delegator, x);
  }

  /** The tables after a delegation. */
  lemma DelegateRows(s: State, p: Pair, amount: nat, row: Validator)
    requires RowsOk(s.validators, s.delegations, s.height) && p.validator in s.validators && amount > 0
    requires RowOk(row, s.delegations[p := At(s.delegations, p) + amount], p.validator, s.height)
    ensures RowsOk(s.validators[p.validator := row], s.delegations[p := At(s.delegations, p) + amount], s.height)
  {
    hide RowOk, StakesOn;
    RowsSet(s.validators, s.delegations, s.delegations[p := At(s.delegations, p) + amount], s.height, p.validator, row);
  }

  lemma DelegateKeeps(s: State, t: Tx)
    requires Inv(s) && t.Delegate? && ExecDelegate(s, s.height + 1, t).Applied?
    ensures Inv(ExecDelegate(s, s.height + 1, t).state)
  {
    hide Sum, Amounts, Bonds, Delegated, Unclaimed, StakesOn, Delegators, IdsOk, AccrualOk, EpochStart, Moved, RowOk;
    hide RowsOk, CountOk, CopiesOk, SnapshotsOk, GatesOk, StakesCovered, BondsCovered, FundingOk;
    var v, r := t.pair.validator, ExecDelegate(s, s.height + 1, t).state;
    var row := r.validators[v];
    PayKeeps(s, t.f, 0, t.amount);
    SetRowSums(s.validators, v, row);
    InvRow(s, v);
    DelegateRow(s.validators[v], s.delegations, s.height, t.pair, t.amount);
    DelegateRows(s, t.pair, t.amount, row);
    KinSet(s.validators, v, row);
    StandingCount(s.validators, s.validators[v := row], s.activeCount);
    KinCopies(s.copies, EpochStart(s.height), s.validators, s.validators[v := row]);
    KinSnapshots(s.snapshots, EpochStart(s.height), s.validators, s.validators[v := row]);
    KinBonds(s.copies, r.coins, s.validators, s.validators[v := row]);
    StakesGrown(s.copies, r.coins, s.delegations, r.delegations);
  }

  lemma StakeKeeps(s: State, t: Tx)
    requires Inv(s) && t.Stake? && ExecStake(s, s.height + 1, t).Applied?
    ensures Inv(ExecStake(s, s.height + 1, t).state)
  {
    hide Sum, Amounts, Bonds, Delegated, Unclaimed, StakesOn, Delegators, IdsOk, AccrualOk, EpochStart, Moved;
    hide RowsOk, CountOk, CopiesOk, SnapshotsOk, GatesOk, StakesCovered, BondsCovered, FundingOk;
    var v, r := t.staker, ExecStake(s, s.height + 1, t).state;
    var row := r.validators[v];
    PayKeeps(s, t.f, 0, t.bond);
    SetRowSums(s.validators, v, row);
    if v in s.validators { InvRow(s, v); }
    NoStakes(s, v);
    RowsTweak(s.validators, s.delegations, s.height, v, row);
    StakeCount(s, v, row);
    StakeCopies(s, v, row);
    StakeSnapshots(s, v, row);
    StakeBonds(s.copies, r.coins, s.validators, v, row);
  }

  ghost predicate Vacant(s: State, v: Key) {
    v in s.validators ==> s.validators[v].status.Unstaked?
  }

  /** A key without a bonded row has no delegations. */
  lemma NoStakes(s: State, v: Key)
    requires RowsOk(s.validators, s.delegations, s.height) && Vacant(s, v)
    ensures Sum(StakesOn(s.delegations, v)) == 0
  {
    if v in s.validators {
      assert RowOk(s.validators[v], s.delegations, v, s.height);
    } else {
      assert StakesOn(s.delegations, v) == map[];
    }
  }

  lemma StakeCount(s: State, v: Key, row: Validator)
    requires CountOk(s.validators, s.activeCount) && Vacant(s, v) && row.status.Active?
    requires s.activeCount < MAX_VALIDATORS
    ensures CountOk(s.validators[v := row], s.activeCount + 1)
  {
    assert CountedKeys(s.validators[v := row]) == CountedKeys(s.validators) + {v};
    assert AutoRetiredKeys(s.validators[v := row]) == AutoRetiredKeys(s.validators);
  }

  lemma StakeCopy(c: Copy, b: nat, vals: map<Key, Validator>, v: Key, row: Validator)
    requires CopyFits(c, b, vals) && row.activeSince > b
    requires row.activeSince <= 1 ==> v !in vals
    requires v in vals ==> vals[v].status.Unstaked?
    ensures CopyFits(c, b, vals[v := row])
  {
  }

  lemma StakeCopies(s: State, v: Key, row: Validator)
    requires CopiesOk(s.copies, s.validators, EpochStart(s.height)) && Vacant(s, v)
    requires v in s.validators ==> RowOk(s.validators[v], s.delegations, v, s.height)
    requires row.activeSince == s.height + 1
    ensures CopiesOk(s.copies, s.validators[v := row], EpochStart(s.height))
  {
    var vals' := s.validators[v := row];
    forall b | b in s.copies ensures CopyFits(s.copies[b], b, vals') {
      StakeCopy(s.copies[b], b, s.validators, v, row);
    }
  }

  lemma SeatsVacant(vals: map<Key, Validator>, k: nat, es: seq<Entry>, v: Key, row: Validator)
    requires SeatsLive(vals, k, es) && (v in vals ==> vals[v].status.Unstaked?)
    ensures SeatsLive(vals[v := row], k, es)
    ensures NotRetired(vals, es) ==> NotRetired(vals[v := row], es)
  {
    forall i | 0 <= i < |es| ensures SeatLive(vals[v := row], k, es[i]) && es[i].key != v {
      assert SeatLive(vals, k, es[i]);
    }
  }

  lemma StakeSnapshots(s: State, v: Key, row: Validator)
    requires SnapshotsOk(s.snapshots, s.validators, EpochStart(s.height)) && Vacant(s, v)
    ensures SnapshotsOk(s.snapshots, s.validators[v := row], EpochStart(s.height))
  {
    var last := EpochStart(s.height);
    SeatsVacant(s.validators, last, s.snapshots[last], v, row);
    SeatsVacant(s.validators, last + EPOCH, s.snapshots[last + EPOCH], v, row);
  }

  lemma StakeBonds(copies: map<nat, Copy>, coins: map<CoinId, Coin>, vals: map<Key, Validator>, v: Key, row: Validator)
    requires BondsCovered(copies, coins, vals)
    requires v in vals ==> vals[v].selfStake <= row.selfStake
    ensures BondsCovered(copies, coins, vals[v := row])
  {
    var vals' := vals[v := row];
    forall b, w | b in copies ensures BondCovered(copies[b], b, coins, vals', w) {
      assert BondCovered(copies[b], b, coins, vals, w);
    }
  }

  function Lowered(stakes: map<Pair, nat>, p: Pair, amount: nat): map<Pair, nat>
    requires p in stakes && amount <= stakes[p]
  {
    if stakes[p] == amount then stakes - {p} else stakes[p := stakes[p] - amount]
  }

  lemma LoweredSum(stakes: map<Pair, nat>, p: Pair, amount: nat)
    requires p in stakes && amount <= stakes[p]
    ensures Sum(StakesOn(Lowered(stakes, p, amount), p.validator)) == Sum(StakesOn(stakes, p.validator)) - amount
    ensures amount <= Sum(StakesOn(stakes, p.validator))
  {
    var d, rows := p.delegator, StakesOn(stakes, p.validator);
    if stakes[p] == amount {
      StakesOnDrop(stakes, p);
      SumDrop(rows, d);
    } else {
      StakesOnSet(stakes, p, stakes[p] - amount);
      SumSet(rows, d, stakes[p] - amount);
    }
  }

  lemma UndelegateRow(v: Validator, stakes: map<Pair, nat>, height: nat, p: Pair, amount: nat)
    requires RowOk(v, stakes, p.validator, height) && p in stakes && amount <= stakes[p]
    ensures amount <= v.totalDelegated == v.externalDelegated
    ensures RowOk(v.(totalDelegated := v.totalDelegated - amount, externalDelegated := v.externalDelegated - amount),
                  Lowered(stakes, p, amount), p.validator, height)
  {
    hide StakesOn, Lowered, Sum;
    LoweredSum(stakes, p, amount);
  }

  lemma UndelegateRows(s: State, p: Pair, amount: nat, row: Validator)
    requires RowsOk(s.validators, s.delegations, s.height) && p.validator in s.validators
    requires p in s.delegations && amount <= s.delegations[p]
    requires RowOk(row, Lowered(s.delegations, p, amount), p.validator, s.height)
    ensures RowsOk(s.validators[p.validator := row], Lowered(s.delegations, p, amount), s.height)
  {
    hide RowOk, StakesOn;
    RowsSet(s.validators, s.delegations, Lowered(s.delegations, p, amount), s.height, p.validator, row);
  }

  lemma UndelegateKeeps(s: State, t: Tx)
    requires Inv(s) && t.Undelegate? && ExecUndelegate(s, s.height + 1, t).Applied?
    ensures Inv(ExecUndelegate(s, s.height + 1, t).state)
  {
    hide Sum, Amounts, Bonds, Delegated, Unclaimed, StakesOn, Delegators, AccrualOk, RowOk, CopyFits, Kin, SameStanding;
    hide RowsOk, CountOk, SnapshotsOk, GatesOk, StakesCovered, BondsCovered, FundingOk;
    var v, r := t.pair.validator, ExecUndelegate(s, s.height + 1, t).state;
    var row, id, paid := r.validators[v], UndelegateOut(t.intent), Moved(s.coins, t.f);
    var release := r.coins[id];
    InvRow(s, v);
    PayKeeps(s, t.f, 0, 0);
    PayCoins(s.coins, s.height + 1, t.f, 0, 0);
    SetRowSums(s.validators, v, row);
    AddCoin(paid, id, release);
    UndelegateRow(s.validators[v], s.delegations, s.height, t.pair, t.amount);
    UndelegateRows(s, t.pair, t.amount, row);
    KinSet(s.validators, v, row);
    StandingCount(s.validators, s.validators[v := row], s.activeCount);
    KinCopies(s.copies, EpochStart(s.height), s.validators, s.validators[v := row]);
    KinSnapshots(s.snapshots, EpochStart(s.height), s.validators, s.validators[v := row]);
    StakesReleased(s.copies, paid, s.delegations, r.delegations, id, release, t.pair);
    BondsCoverKept(s.copies, EpochStart(s.height), paid, r.coins, s.height + 1, s.validators);
    KinBonds(s.copies, r.coins, s.validators, s.validators[v := row]);
  }

  lemma ClaimKeeps(s: State, t: Tx)
    requires Inv(s) && t.Claim? && ExecClaim(s, t).Applied?
    ensures Inv(ExecClaim(s, t).state)
  {
    hide RowsOk, CountOk, SnapshotsOk, GatesOk, StakesCovered, BondsCovered;
    var a, r := s.allocations[t.claim], ExecClaim(s, t).state;
    AddCoin(s.coins, ClaimOut(t.claim), Coin(a.owner, a.amount, 0, Plain));
    assert Unclaimed(s.allocations - {t.claim}) == Unclaimed(s.allocations) - {t.claim};
    SumDrop(Unclaimed(s.allocations), t.claim);
    StakesCoverKept(s.copies, EpochStart(s.height), s.coins, r.coins, s.height + 1, s.delegations);
    BondsCoverKept(s.copies, EpochStart(s.height), s.coins, r.coins, s.height + 1, s.validators);
  }

  lemma SpendKeeps(s: State, f: Funding, minOut: nat, burn: nat)
    requires Inv(s) && FundingOk(s.coins, s.height + 1, f, minOut, burn)
    ensures Inv(Pay(s, f).(burned := s.burned + burn))
  {
    hide RowsOk, CountOk, SnapshotsOk, GatesOk, StakesCovered, BondsCovered, FundingOk;
    PayKeeps(s, f, minOut, burn);
  }

  /** Every item keeps the invariant, whatever its outcome. */
  lemma ItemKeeps(s: State, t: Tx)
    requires Inv(s)
    ensures Inv(ApplyItem(s, s.height + 1, t))
    ensures ApplyItem(s, s.height + 1, t).height == s.height
  {
    hide Inv, FundingOk;
    if Exec(s, s.height + 1, t).Applied? {
      match t
      case Spend(f) => SpendKeeps(s, f, 1, 0);
      case Burn(f, amount) => SpendKeeps(s, f, 0, amount);
      case Stake(_, _, _, _, _, _) => StakeKeeps(s, t);
      case Unstake(_, _, _) => UnstakeKeeps(s, t);
      case Delegate(_, _, _, _) => DelegateKeeps(s, t);
      case Undelegate(_, _, _, _, _) => UndelegateKeeps(s, t);
      case SetCommission(_, _, _, _) => SetCommissionKeeps(s, t);
      case Claim(_) => ClaimKeeps(s, t);
    }
  }
}
