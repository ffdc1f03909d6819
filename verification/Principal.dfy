/** Whose money it is: over every run, what an owner has in coins, stakes,
    bonds, accruals and allocations is exactly what it had, less the coins it
    spent, plus what items made for it and what it earned. Settlement, Rule N
    and graduation take from nobody and give to nobody else. */
module Principal {
  import opened Sums
  import opened Ledger
  import opened Transactions
  import opened Settlement
  import opened Committee
  import opened Boundary
  import opened BoundaryProofs
  import opened Runs
  import opened Rewards
  import opened Income

  ghost function CoinsOf(coins: map<CoinId, Coin>, k: Key): map<CoinId, nat> {
    map c | c in coins && coins[c].owner == k :: coins[c].amount
  }

  ghost function StakesBy(stakes: map<Pair, nat>, k: Key): map<Pair, nat> {
    map p | p in stakes && p.delegator == k :: stakes[p]
  }

  /** The bonds that come back to k. */
  ghost function BondsTo(vals: map<Key, Validator>, k: Key): map<Key, nat> {
    map v | v in vals && vals[v].destination == k :: vals[v].selfStake
  }

  ghost function ClaimsOf(allocs: map<nat, Allocation>, k: Key): map<nat, nat> {
    map a | a in allocs && allocs[a].owner == k :: allocs[a].amount
  }

  ghost function Wealth(s: State, k: Key): nat {
    Sum(CoinsOf(s.coins, k)) + Sum(StakesBy(s.delegations, k)) + Sum(BondsTo(s.validators, k))
    + Sum(ClaimsOf(s.allocations, k)) + At(s.accrual, k)
  }

  predicate Signed(t: Tx, k: Key) {
    match t
    case Spend(f) => k in f.signers
    case Burn(f, _) => k in f.signers
    case Stake(f, signer, _, _, _, _) => k in f.signers || signer == k
    case Unstake(f, signer, _) => k in f.signers || signer == k
    case Delegate(f, signer, _, _) => k in f.signers || signer == k
    case Undelegate(f, signer, _, _, _) => k in f.signers || signer == k
    case SetCommission(f, signer, _, _) => k in f.signers || signer == k
    case Claim(_) => false
  }

  // ── items ───────────────────────────────────────────────────────────

  /** What the leg spends of k's coins, and makes for k. */
  ghost function SpentBy(coins: map<CoinId, Coin>, f: Funding, k: Key): nat {
    Sum(map c | c in coins && c in f.inputs && coins[c].owner == k :: coins[c].amount)
  }

  function MadeFor(outs: seq<Output>, k: Key): nat {
    if outs == [] then 0
    else MadeFor(outs[..|outs| - 1], k) + (if outs[|outs| - 1].owner == k then outs[|outs| - 1].amount else 0)
  }

  lemma CoinAdds(a: map<CoinId, Coin>, k: Key, id: CoinId, c: Coin)
    requires id !in a
    ensures Sum(CoinsOf(a[id := c], k)) == Sum(CoinsOf(a, k)) + if c.owner == k then c.amount else 0
  {
    hide Sum;
    if c.owner == k {
      assert CoinsOf(a[id := c], k) == CoinsOf(a, k)[id := c.amount];
      SumSet(CoinsOf(a, k), id, c.amount);
    } else {
      assert CoinsOf(a[id := c], k) == CoinsOf(a, k);
    }
  }

  lemma {:induction false} MadeCoins(a: map<CoinId, Coin>, outs: seq<Output>, k: Key)
    requires OutputsOk(outs) && Minted(outs).Keys !! a.Keys
    ensures Sum(CoinsOf(a + Minted(outs), k)) == Sum(CoinsOf(a, k)) + MadeFor(outs, k)
    decreases |outs|
  {
    hide Sum;
    if outs == [] {
      assert a + Minted(outs) == a;
    } else {
      var n := |outs| - 1;
      var o, before := outs[n], Minted(outs[..n]);
      MadeCoins(a, outs[..n], k);
      UnionSet(a, before, IdOf(o), Coin(o.owner, o.amount, 0, Plain));
      assert IdOf(o) in Minted(outs) && IdOf(o) !in a + before;
      CoinAdds(a + before, k, IdOf(o), Coin(o.owner, o.amount, 0, Plain));
    }
  }

  lemma SpentCoins(coins: map<CoinId, Coin>, f: Funding, k: Key)
    ensures Sum(CoinsOf(coins, k)) == Sum(CoinsOf(coins - f.inputs, k)) + SpentBy(coins, f, k)
  {
    hide Sum;
    var own := CoinsOf(coins, k);
    SumSplit(own, f.inputs);
    assert CoinsOf(coins - f.inputs, k) == own - f.inputs;
    assert (map c | c in own && c in f.inputs :: own[c])
        == (map c | c in coins && c in f.inputs && coins[c].owner == k :: coins[c].amount);
  }

  lemma LegAccounts(coins: map<CoinId, Coin>, h: nat, f: Funding, minOut: nat, need: nat, k: Key)
    requires FundingOk(coins, h, f, minOut, need)
    ensures Sum(CoinsOf(Moved(coins, f), k)) + SpentBy(coins, f, k) == Sum(CoinsOf(coins, k)) + MadeFor(f.outputs, k)
    ensures k !in f.signers ==> SpentBy(coins, f, k) == 0
  {
    hide Sum, OutputsOk, Minted, SpentBy;
    SpentCoins(coins, f, k);
    MadeCoins(coins - f.inputs, f.outputs, k);
    if k !in f.signers { NotSpent(coins, h, f, k); }
  }

  lemma NotSpent(coins: map<CoinId, Coin>, h: nat, f: Funding, k: Key)
    requires InputsOk(coins, h, f) && k !in f.signers
    ensures SpentBy(coins, f, k) == 0
  {
    var m := map c | c in coins && c in f.inputs && coins[c].owner == k :: coins[c].amount;
    assert m == map[];
  }

  /** What the item spends of k's coins. */
  ghost function Spent(s: State, t: Tx, k: Key): nat { if t.Claim? then 0 else SpentBy(s.coins, t.f, k) }

  /** What it makes for k: outputs, a bond that comes back to k, a stake of
      k's. */
  function Made(t: Tx, k: Key): nat {
    match t
    case Stake(f, _, _, bond, _, to) => MadeFor(f.outputs, k) + if to == k then bond else 0
    case Delegate(f, _, p, x) => MadeFor(f.outputs, k) + if p.delegator == k then x else 0
    case Claim(_) => 0
    case _ => MadeFor(t.f.outputs, k)
  }

  /** The bond of one row is set to x, to come back to `to`. */
  lemma BondSet(a: map<Key, Validator>, v: Key, row: Validator, k: Key)
    ensures Sum(BondsTo(a[v := row], k)) + (if v in a && a[v].destination == k then a[v].selfStake else 0)
         == Sum(BondsTo(a, k)) + if row.destination == k then row.selfStake else 0
  {
    hide Sum;
    var m := BondsTo(a, k);
    if row.destination == k {
      assert BondsTo(a[v := row], k) == m[v := row.selfStake];
      SumSet(m, v, row.selfStake);
    } else {
      assert BondsTo(a[v := row], k) == m - {v};
      SumDrop(m, v);
    }
  }

  /** The same bonds to the same destinations. */
  lemma BondsSame(a: map<Key, Validator>, b: map<Key, Validator>, k: Key)
    requires a.Keys == b.Keys
    requires forall v :: v in a ==> b[v].selfStake == a[v].selfStake && b[v].destination == a[v].destination
    ensures BondsTo(b, k) == BondsTo(a, k)
  {
  }

  ghost predicate Accounts(s: State, t: Tx, u: State, k: Key) {
    Wealth(u, k) + Spent(s, t, k) == Wealth(s, k) + Made(t, k)
  }

  lemma StakeAccounts(s: State, h: nat, t: Tx, k: Key)
    requires t.Stake? && ExecStake(s, h, t).Applied?
    ensures Accounts(s, t, ExecStake(s, h, t).state, k)
  {
    hide FundingOk, Moved, Sum, CoinsOf, BondsTo, SpentBy, MadeFor;
    LegAccounts(s.coins, h, t.f, 0, t.bond, k);
    BondSet(s.validators, t.staker, ExecStake(s, h, t).state.validators[t.staker], k);
  }

  lemma UnstakeAccounts(s: State, h: nat, t: Tx, k: Key)
    requires t.Unstake? && ExecUnstake(s, h, t).Applied?
    ensures Accounts(s, t, ExecUnstake(s, h, t).state, k)
  {
    hide FundingOk, Moved, Sum, CoinsOf, BondsTo, SpentBy, MadeFor;
    LegAccounts(s.coins, h, t.f, 0, 0, k);
    BondsSame(s.validators, ExecUnstake(s, h, t).state.validators, k);
  }

  lemma DelegateAccounts(s: State, h: nat, t: Tx, k: Key)
    requires t.Delegate? && ExecDelegate(s, h, t).Applied?
    ensures Accounts(s, t, ExecDelegate(s, h, t).state, k)
  {
    hide FundingOk, Moved, DelegatorCount, Sum, CoinsOf, BondsTo, SpentBy, MadeFor;
    var u := ExecDelegate(s, h, t).state;
    LegAccounts(s.coins, h, t.f, 0, t.amount, k);
    BondsSame(s.validators, u.validators, k);
    StakeSet(s.delegations, t.pair, At(s.delegations, t.pair) + t.amount, k);
  }

  lemma StakeSet(stakes: map<Pair, nat>, p: Pair, x: nat, k: Key)
    ensures Sum(StakesBy(stakes[p := x], k)) + (if p.delegator == k then At(stakes, p) else 0)
         == Sum(StakesBy(stakes, k)) + if p.delegator == k then x else 0
    ensures Sum(StakesBy(stakes - {p}, k)) + (if p.delegator == k then At(stakes, p) else 0)
         == Sum(StakesBy(stakes, k))
  {
    hide Sum;
    var m := StakesBy(stakes, k);
    assert StakesBy(stakes - {p}, k) == m - {p};
    SumDrop(m, p);
    if p.delegator == k {
      assert StakesBy(stakes[p := x], k) == m[p := x];
      SumSet(m, p, x);
    } else {
      assert StakesBy(stakes[p := x], k) == m;
    }
  }

  lemma UndelegateAccounts(s: State, h: nat, t: Tx, k: Key)
    requires t.Undelegate? && ExecUndelegate(s, h, t).Applied?
    ensures Accounts(s, t, ExecUndelegate(s, h, t).state, k)
  {
    hide FundingOk, PowerExit, Sum, CoinsOf, BondsTo, StakesBy, SpentBy, MadeFor;
    var u := ExecUndelegate(s, h, t).state;
    LegAccounts(s.coins, h, t.f, 0, 0, k);
    BondsSame(s.validators, u.validators, k);
    StakeSet(s.delegations, t.pair, s.delegations[t.pair] - t.amount, k);
    MintedWires(t.f.outputs, UndelegateOut(t.intent));
    CoinAdds(Moved(s.coins, t.f), k, UndelegateOut(t.intent), u.coins[UndelegateOut(t.intent)]);
  }

  lemma {:induction false} MintedWires(outs: seq<Output>, c: CoinId)
    requires !c.WireOut?
    ensures c !in Minted(outs)
    decreases |outs|
  {
    if outs != [] { MintedWires(outs[..|outs| - 1], c); }
  }

  lemma SetCommissionAccounts(s: State, h: nat, t: Tx, k: Key)
    requires t.SetCommission? && ExecSetCommission(s, h, t).Applied?
    ensures Accounts(s, t, ExecSetCommission(s, h, t).state, k)
  {
    hide FundingOk, Moved, Sum, CoinsOf, BondsTo, SpentBy, MadeFor;
    LegAccounts(s.coins, h, t.f, 0, 0, k);
    BondsSame(s.validators, ExecSetCommission(s, h, t).state.validators, k);
  }

  lemma ClaimAccounts(s: State, t: Tx, k: Key)
    requires t.Claim? && ExecClaim(s, t).Applied?
    ensures Accounts(s, t, ExecClaim(s, t).state, k)
  {
    hide Sum, CoinsOf;
    var u, a := ExecClaim(s, t).state, s.allocations[t.claim];
    assert ClaimsOf(u.allocations, k) == ClaimsOf(s.allocations, k) - {t.claim};
    SumDrop(ClaimsOf(s.allocations, k), t.claim);
    CoinAdds(s.coins, k, ClaimOut(t.claim), u.coins[ClaimOut(t.claim)]);
  }

  /** Every applied item, for every owner: what the owner has afterwards and
      what it spent are what it had and what was made for it. */
  lemma ItemAccounts(s: State, h: nat, t: Tx, k: Key)
    requires Exec(s, h, t).Applied?
    ensures Accounts(s, t, Exec(s, h, t).state, k)
    ensures !Signed(t, k) ==> Spent(s, t, k) == 0
  {
    hide Accounts, FundingOk, Moved, ExecStake, ExecUnstake, ExecDelegate, ExecUndelegate, ExecSetCommission, ExecClaim;
    if !Signed(t, k) { NotSigned(s, h, t, k); }
    match t
    case Spend(f) => PlainAccounts(s, h, t, 1, 0, k);
    case Burn(f, amount) => PlainAccounts(s, h, t, 0, amount, k);
    case Stake(_, _, _, _, _, _) => StakeAccounts(s, h, t, k);
    case Unstake(_, _, _) => UnstakeAccounts(s, h, t, k);
    case Delegate(_, _, _, _) => DelegateAccounts(s, h, t, k);
    case Undelegate(_, _, _, _, _) => UndelegateAccounts(s, h, t, k);
    case SetCommission(_, _, _, _) => SetCommissionAccounts(s, h, t, k);
    case Claim(_) => ClaimAccounts(s, t, k);
  }

  lemma NotSigned(s: State, h: nat, t: Tx, k: Key)
    requires Exec(s, h, t).Applied? && !Signed(t, k)
    ensures Spent(s, t, k) == 0
  {
    hide OutputsOk, Minted, SpentBy, InSum, OutSum, InputsOk, DelegatorCount, PowerExit;
    if !t.Claim? { NotSpent(s.coins, h, t.f, k); }
  }

  lemma PlainAccounts(s: State, h: nat, t: Tx, minOut: nat, need: nat, k: Key)
    requires (t.Spend? || t.Burn?) && Exec(s, h, t).Applied? && FundingOk(s.coins, h, t.f, minOut, need)
    ensures Accounts(s, t, Exec(s, h, t).state, k)
  {
    hide FundingOk, Moved, Sum, CoinsOf, SpentBy, MadeFor;
    LegAccounts(s.coins, h, t.f, minOut, need, k);
  }

  /** No item takes from an owner who did not sign it. */
  lemma ItemGrows(s: State, h: nat, t: Tx, k: Key)
    requires !Signed(t, k)
    ensures Wealth(s, k) <= Wealth(ApplyItem(s, h, t), k)
  {
    hide Wealth, Exec, Made, Spent;
    if Exec(s, h, t).Applied? { ItemAccounts(s, h, t, k); }
  }

  // ── boundaries ──────────────────────────────────────────────────────

  lemma SettleAccounts(s: State, h: nat, k: Key)
    requires IsBoundary(h) && Settle(ActivateCommissions(s, h), h).Ok?
    ensures Wealth(Settle(ActivateCommissions(s, h), h).value, k) == Wealth(s, k) + Reward(s, h, k)
  {
    hide Sum, Settle, Reward, BondsTo;
    var s0 := ActivateCommissions(s, h);
    BondsSame(s.validators, s0.validators, k);
    SettleOnly(s0, h);
    RewardPaid(s0, h, k);
    SameReward(s, s0, h, k);
  }

  lemma PaydayAccounts(s: State, h: nat, k: Key)
    requires Payday(s, h).Ok?
    ensures Wealth(Payday(s, h).value, k) == Wealth(s, k)
  {
    hide Sum;
    if IsPayday(s, h) {
      var u, c := Payday(s, h).value, PaydayOut(h, k);
      if k in s.accrual {
        assert CoinsOf(u.coins, k) == CoinsOf(s.coins, k)[c := s.accrual[k]];
        SumSet(CoinsOf(s.coins, k), c, s.accrual[k]);
      } else {
        assert CoinsOf(u.coins, k) == CoinsOf(s.coins, k);
      }
    }
  }

  /** The bond goes to its destination, and nowhere else. */
  lemma BondReturns(s: State, h: nat, v: Key, k: Key)
    requires v in s.validators && BondOut(h, v) !in s.coins
    ensures var row := s.validators[v];
            var coins := s.coins[BondOut(h, v) := BondCoin(h, v, row)];
            Sum(CoinsOf(s.coins, k)) + Sum(BondsTo(s.validators, k))
            == Sum(CoinsOf(coins, k)) + Sum(BondsTo(s.validators[v := Graduated(row)], k))
  {
    hide Sum, CoinsOf, BondsTo;
    var row := s.validators[v];
    CoinAdds(s.coins, k, BondOut(h, v), BondCoin(h, v, row));
    BondSet(s.validators, v, Graduated(row), k);
  }

  /** Every delegation goes back to its delegator, and nowhere else. */
  lemma StakesReturn(coins: map<CoinId, Coin>, h: nat, v: Key, stakes: map<Pair, nat>, k: Key)
    requires StakesFree(coins, h, v, stakes)
    ensures Sum(CoinsOf(coins, k)) + Sum(StakesBy(stakes, k))
         == Sum(CoinsOf(Freed(coins, h, v, stakes), k)) + Sum(StakesBy(Without(stakes, v), k))
  {
    hide Sum;
    var p, after := Pair(v, k), Freed(coins, h, v, stakes);
    assert StakesBy(Without(stakes, v), k) == StakesBy(stakes, k) - {p};
    SumDrop(StakesBy(stakes, k), p);
    FreedOf(coins, h, v, stakes, k);
    SumSet(CoinsOf(coins, k), DelegationOut(h, p), At(stakes, p));
  }

  lemma FreedOf(coins: map<CoinId, Coin>, h: nat, v: Key, stakes: map<Pair, nat>, k: Key)
    requires StakesFree(coins, h, v, stakes)
    ensures CoinsOf(Freed(coins, h, v, stakes), k) == Returned(CoinsOf(coins, k), h, stakes, Pair(v, k))
    ensures Pair(v, k) in stakes ==> DelegationOut(h, Pair(v, k)) !in coins
  {
    hide Sum, CoinsOf, Freed, Returned, StakesOn;
    assert k in StakesOn(stakes, v) <==> Pair(v, k) in stakes;
    var after, want := CoinsOf(Freed(coins, h, v, stakes), k), Returned(CoinsOf(coins, k), h, stakes, Pair(v, k));
    forall x ensures (x in after <==> x in want) && (x in after ==> after[x] == want[x]) {
      FreedAt(coins, h, v, stakes, k, x);
    }
    assert after.Keys == want.Keys;
  }

  /** One delegation back among its delegator's coins. */
  function Returned(own: map<CoinId, nat>, h: nat, stakes: map<Pair, nat>, p: Pair): map<CoinId, nat> {
    if p in stakes then own[DelegationOut(h, p) := stakes[p]] else own
  }

  lemma FreedAt(coins: map<CoinId, Coin>, h: nat, v: Key, stakes: map<Pair, nat>, k: Key, x: CoinId)
    requires StakesFree(coins, h, v, stakes)
    ensures var after, want := CoinsOf(Freed(coins, h, v, stakes), k), Returned(CoinsOf(coins, k), h, stakes, Pair(v, k));
            (x in after <==> x in want) && (x in after ==> after[x] == want[x])
  {
    hide StakesOn, ReleaseCoins;
    var rows := StakesOn(stakes, v);
    assert k in rows <==> Pair(v, k) in stakes;
    if x.DelegationOut? && x.boundary == h && x.pair == Pair(v, k) {
      assert x in ReleaseCoins(h, v, rows) <==> k in rows;
    }
  }

  lemma GraduateOneAccounts(s: State, h: nat, v: Key, k: Key)
    requires v in s.validators && GraduateOne(s, h, v).Ok?
    ensures Wealth(GraduateOne(s, h, v).value, k) == Wealth(s, k)
  {
    hide Sum, StakesOn, Freed, ReleaseCoins;
    var coins := s.coins[BondOut(h, v) := BondCoin(h, v, s.validators[v])];
    BondReturns(s, h, v, k);
    StakesReturn(coins, h, v, s.delegations, k);
  }

  lemma {:induction false} GraduateAccounts(s: State, h: nat, ks: set<Key>, k: Key)
    requires GraduateAll(s, h, ks).Ok?
    ensures Wealth(GraduateAll(s, h, ks).value, k) == Wealth(s, k)
    decreases ks
  {
    hide Wealth, GraduateOne;
    if ks != {} {
      var v := Least(ks);
      GraduateOneAccounts(s, h, v, k);
      GraduateAccounts(GraduateOne(s, h, v).value, h, ks - {v}, k);
    }
  }

  lemma OpenAccounts(s: State, h: nat, k: Key)
    requires IsBoundary(h) && Open(s, h).Ok?
    ensures Wealth(Open(s, h).value, k) == Wealth(s, k) + Reward(s, h, k)
  {
    hide Wealth, Settle, Payday, GraduateAll, ActivateCommissions, Reward;
    SettleAccounts(s, h, k);
    var s1 := Settle(ActivateCommissions(s, h), h).value;
    PaydayAccounts(s1, h, k);
    var s2 := Payday(s1, h).value;
    GraduateAccounts(s2, h, Graduates(s2, h), k);
  }

  /** Rule N and the close of a boundary move no money. */
  lemma RuleNAccounts(s: State, h: nat, tb: Tiebreak, k: Key)
    requires h >= EPOCH && RuleN(s, h, tb).Ok?
    ensures Wealth(RuleN(s, h, tb).value, k) == Wealth(s, k)
  {
    hide Sum, CommitteeFor, Due, Allowed, Recount, Retire, BondsTo, BondedKeys;
    RecountAccounts(s, h, k);
    RetireAccounts(Recount(s, h), k);
  }

  lemma RecountAccounts(s: State, h: nat, k: Key)
    requires h >= EPOCH
    ensures Recount(s, h) == s.(validators := Recount(s, h).validators)
    ensures BondsTo(Recount(s, h).validators, k) == BondsTo(s.validators, k)
  {
    hide Charged, BondsTo;
    BondsSame(s.validators, Recount(s, h).validators, k);
  }

  lemma RetireAccounts(s: State, k: Key)
    ensures Retire(s) == s.(validators := Retire(s).validators)
    ensures BondsTo(Retire(s).validators, k) == BondsTo(s.validators, k)
  {
    hide Due, BondsTo;
    BondsSame(s.validators, Retire(s).validators, k);
  }

  lemma CloseAccounts(s: State, h: nat, tb: Tiebreak, k: Key)
    requires h >= EPOCH && Close(s, h, tb).Ok?
    ensures Wealth(Close(s, h, tb).value, k) == Wealth(s, k)
  {
    hide Sum, CommitteeFor, LiveCopy, SeatKeys, BondsTo;
    BondsSame(s.validators, Close(s, h, tb).value.validators, k);
  }

  /** A boundary gives every owner exactly its reward. */
  lemma BoundaryGrows(s: State, h: nat, tb: Tiebreak, k: Key)
    requires IsBoundary(h) && RunBoundary(s, h, tb).Ok?
    ensures Wealth(RunBoundary(s, h, tb).value, k) == Wealth(s, k) + Reward(s, h, k)
  {
    hide Wealth, Open, RuleN, Close, Reward;
    OpenAccounts(s, h, k);
    var s2 := Open(s, h).value;
    RuleNAccounts(s2, h, tb, k);
    CloseAccounts(RuleN(s2, h, tb).value, h, tb, k);
  }

  // ── runs ────────────────────────────────────────────────────────────

  predicate NothingSigned(items: seq<Tx>, k: Key) {
    forall i :: 0 <= i < |items| ==> !Signed(items[i], k)
  }

  predicate NoBlockSigned(blocks: seq<Block>, k: Key) {
    forall i :: 0 <= i < |blocks| ==> NothingSigned(blocks[i].items, k)
  }

  lemma {:induction false} ItemsGrow(s: State, h: nat, items: seq<Tx>, k: Key)
    requires NothingSigned(items, k)
    ensures Wealth(s, k) <= Wealth(ApplyItems(s, h, items), k)
    decreases |items|
  {
    hide Wealth, ApplyItem, Signed;
    if items != [] {
      ItemGrows(s, h, items[0], k);
      ItemsGrow(ApplyItem(s, h, items[0]), h, items[1..], k);
    }
  }

  lemma BlockGrows(s: State, b: Block, k: Key)
    requires ApplyBlock(s, b).Ok? && NothingSigned(b.items, k)
    ensures Wealth(s, k) <= Wealth(ApplyBlock(s, b).value, k)
  {
    hide Sum, RunBoundary, ApplyItems, CoinsOf, StakesBy, BondsTo, ClaimsOf;
    ItemsGrow(s, s.height + 1, b.items, k);
    if IsBoundary(s.height + 1) { BoundaryGrows(BeforeBoundary(s, b), s.height + 1, b.tb, k); }
  }

  /** Over every run, whatever others do and whatever Rule N decides, nobody
      loses a unit without having signed for it. */
  lemma {:induction false} NothingTaken(s: State, blocks: seq<Block>, k: Key)
    requires Run(s, blocks).Ok? && NoBlockSigned(blocks, k)
    ensures Wealth(s, k) <= Wealth(Run(s, blocks).value, k)
    decreases |blocks|
  {
    hide Wealth, ApplyBlock, NothingSigned;
    if blocks != [] {
      var n := |blocks| - 1;
      NothingTaken(s, blocks[..n], k);
      BlockGrows(Run(s, blocks[..n]).value, blocks[n], k);
    }
  }

  // ── the account of a run ────────────────────────────────────────────

  ghost function SpentIn(s: State, h: nat, items: seq<Tx>, k: Key): nat
    decreases |items|
  {
    if items == [] then 0
    else (if Exec(s, h, items[0]).Applied? then Spent(s, items[0], k) else 0)
         + SpentIn(ApplyItem(s, h, items[0]), h, items[1..], k)
  }

  ghost function MadeIn(s: State, h: nat, items: seq<Tx>, k: Key): nat
    decreases |items|
  {
    if items == [] then 0
    else (if Exec(s, h, items[0]).Applied? then Made(items[0], k) else 0)
         + MadeIn(ApplyItem(s, h, items[0]), h, items[1..], k)
  }

  lemma {:induction false} ItemsAccount(s: State, h: nat, items: seq<Tx>, k: Key)
    ensures Wealth(ApplyItems(s, h, items), k) + SpentIn(s, h, items, k) == Wealth(s, k) + MadeIn(s, h, items, k)
    decreases |items|
  {
    hide Wealth, Exec, Made, Spent;
    if items != [] {
      if Exec(s, h, items[0]).Applied? { ItemAccounts(s, h, items[0], k); }
      ItemsAccount(ApplyItem(s, h, items[0]), h, items[1..], k);
    }
  }

  ghost function RunSpent(s: State, blocks: seq<Block>, k: Key): nat
    requires Run(s, blocks).Ok?
    decreases |blocks|
  {
    if blocks == [] then 0
    else
      var head, b := blocks[..|blocks| - 1], blocks[|blocks| - 1];
      var t := Run(s, head).value;
      RunSpent(s, head, k) + SpentIn(t, t.height + 1, b.items, k)
  }

  ghost function RunMade(s: State, blocks: seq<Block>, k: Key): nat
    requires Run(s, blocks).Ok?
    decreases |blocks|
  {
    if blocks == [] then 0
    else
      var head, b := blocks[..|blocks| - 1], blocks[|blocks| - 1];
      var t := Run(s, head).value;
      RunMade(s, head, k) + MadeIn(t, t.height + 1, b.items, k)
  }

  lemma BlockAccounts(s: State, b: Block, k: Key)
    requires ApplyBlock(s, b).Ok?
    ensures var h := s.height + 1;
            Wealth(ApplyBlock(s, b).value, k) + SpentIn(s, h, b.items, k)
            == Wealth(s, k) + MadeIn(s, h, b.items, k) + SharedAt(BeforeBoundary(s, b), h, k)
  {
    hide Sum, RunBoundary, ApplyItems, CoinsOf, StakesBy, BondsTo, ClaimsOf, Reward, SpentIn, MadeIn;
    ItemsAccount(s, s.height + 1, b.items, k);
    if IsBoundary(s.height + 1) { BoundaryGrows(BeforeBoundary(s, b), s.height + 1, b.tb, k); }
  }

  /** Over every run and for every owner, to the unit: what it has is what it
      had, less the coins it spent, plus what items made for it, plus what its
      seats and stakes earned. */
  lemma {:induction false} RunAccounts(s: State, blocks: seq<Block>, k: Key)
    requires Run(s, blocks).Ok?
    ensures Wealth(Run(s, blocks).value, k) + RunSpent(s, blocks, k)
         == Wealth(s, k) + RunMade(s, blocks, k) + EarnedIn(s, blocks, k)
    decreases |blocks|
  {
    hide Wealth, ApplyBlock, SpentIn, MadeIn, SharedAt, BeforeBoundary;
    if blocks != [] {
      var n := |blocks| - 1;
      RunAccounts(s, blocks[..n], k);
      BlockAccounts(Run(s, blocks[..n]).value, blocks[n], k);
    }
  }
}
