/** What every reachable chain keeps within its numbers: no position below the
    minimum, no validator with more than 2048 delegators, and every coin locked
    for exactly as long as its kind says. */
module Limits {
  import opened Sums
  import opened Ledger
  import opened Transactions
  import opened Settlement
  import opened Committee
  import opened Boundary
  import opened BoundaryProofs
  import opened Runs
  import opened Income
  import opened Acceptance

  // ── positions ───────────────────────────────────────────────────────

  /** Every position is at least 100 coins. */
  predicate NoDust(stakes: map<Pair, nat>) { forall p :: p in stakes ==> stakes[p] >= 10_000_000_000 }

  ghost predicate NotCrowded(stakes: map<Pair, nat>) { forall v :: |Delegators(stakes, v)| <= 2048 }

  lemma Fewer(a: map<Pair, nat>, b: map<Pair, nat>, v: Key)
    requires b.Keys <= a.Keys
    ensures |Delegators(b, v)| <= |Delegators(a, v)|
  {
    Within(Delegators(b, v), Delegators(a, v));
  }

  lemma {:induction false} Within(a: set<Key>, b: set<Key>)
    requires a <= b
    ensures |a| <= |b|
    decreases a
  {
    if x :| x in a { Within(a - {x}, b - {x}); }
  }

  lemma OneMore(a: map<Pair, nat>, p: Pair, x: nat, v: Key)
    ensures |Delegators(a[p := x], v)| <= |Delegators(a, v)| + 1
    ensures v != p.validator || p in a ==> |Delegators(a[p := x], v)| <= |Delegators(a, v)|
  {
    var l, r := Delegators(a[p := x], v), Delegators(a, v);
    if v == p.validator {
      assert l == r + {p.delegator};
    } else {
      assert l == r;
    }
  }

  lemma ItemLimits(s: State, h: nat, t: Tx)
    requires NoDust(s.delegations) && NotCrowded(s.delegations)
    ensures var u := ApplyItem(s, h, t); NoDust(u.delegations) && NotCrowded(u.delegations)
  {
    hide FundingOk, Moved, PowerExit, DelegatorCount;
    if Exec(s, h, t).Applied? {
      match t {
        case Delegate(_, _, p, x) =>
          CountIs(s.delegations, p.validator);
          forall v ensures |Delegators(ApplyItem(s, h, t).delegations, v)| <= 2048 {
            OneMore(s.delegations, p, At(s.delegations, p) + x, v);
          }
        case Undelegate(_, _, p, x, _) =>
          forall v ensures |Delegators(ApplyItem(s, h, t).delegations, v)| <= 2048 {
            Fewer(s.delegations, ApplyItem(s, h, t).delegations, v);
          }
        case _ =>
      }
    }
  }

  lemma {:induction false} ItemsLimits(s: State, h: nat, items: seq<Tx>)
    requires NoDust(s.delegations) && NotCrowded(s.delegations)
    ensures var u := ApplyItems(s, h, items); NoDust(u.delegations) && NotCrowded(u.delegations)
    decreases |items|
  {
    hide ApplyItem, NoDust, NotCrowded;
    if items != [] {
      ItemLimits(s, h, items[0]);
      ItemsLimits(ApplyItem(s, h, items[0]), h, items[1..]);
    }
  }

  // ── locks ───────────────────────────────────────────────────────────

  /** Until when a coin of this kind is locked, in a chain of this height. */
  predicate LockFits(c: CoinId, unlock: nat, height: nat) {
    match c
    case WireOut(_, _) => unlock == 0
    case PaydayOut(_, _) => unlock == 0
    case ClaimOut(_) => unlock == 0
    case BondOut(b, _) => unlock == b + 60480
    case DelegationOut(b, _) => unlock == b + 8640
    case UndelegateOut(_) => unlock % 720 == 0 && unlock < height + 10800
  }

  predicate LocksFit(coins: map<CoinId, Coin>, height: nat) {
    forall c :: c in coins ==> LockFits(c, coins[c].unlock, height)
  }

  lemma {:induction false} MintedLocks(outs: seq<Output>, h: nat)
    ensures LocksFit(Minted(outs), h)
    decreases |outs|
  {
    if outs != [] { MintedLocks(outs[..|outs| - 1], h); }
  }

  lemma LegLocks(coins: map<CoinId, Coin>, f: Funding, h: nat)
    requires LocksFit(coins, h)
    ensures LocksFit(Moved(coins, f), h)
  {
    hide Minted, LockFits;
    MintedLocks(f.outputs, h);
  }

  lemma ItemLocks(s: State, h: nat, t: Tx)
    requires LocksFit(s.coins, h)
    ensures LocksFit(ApplyItem(s, h, t).coins, h)
  {
    hide FundingOk, Moved, DelegatorCount;
    if !t.Claim? { LegLocks(s.coins, t.f, h); }
  }

  lemma {:induction false} ItemsLocks(s: State, h: nat, items: seq<Tx>)
    requires LocksFit(s.coins, h)
    ensures LocksFit(ApplyItems(s, h, items).coins, h)
    decreases |items|
  {
    hide ApplyItem, LocksFit;
    if items != [] {
      ItemLocks(s, h, items[0]);
      ItemsLocks(ApplyItem(s, h, items[0]), h, items[1..]);
    }
  }

  // ── boundaries ──────────────────────────────────────────────────────

  ghost predicate Fits(s: State, height: nat) {
    NoDust(s.delegations) && NotCrowded(s.delegations) && LocksFit(s.coins, height)
  }

  lemma OneFits(s: State, h: nat, v: Key)
    requires Fits(s, h) && v in s.validators && GraduateOne(s, h, v).Ok?
    ensures Fits(GraduateOne(s, h, v).value, h)
  {
    hide StakesOn, StakeSum, StakesFree, Released, LocksFit, Delegators;
    var t := GraduateOne(s, h, v).value;
    forall k ensures |Delegators(t.delegations, k)| <= 2048 { Fewer(s.delegations, t.delegations, k); }
    ReleasedFits(s.coins, h, v, s.validators[v], s.delegations);
  }

  lemma ReleasedFits(coins: map<CoinId, Coin>, h: nat, v: Key, row: Validator, stakes: map<Pair, nat>)
    requires LocksFit(coins, h)
    ensures LocksFit(Released(coins, h, v, row, stakes), h)
  {
    hide StakesOn;
  }

  lemma {:induction false} GraduateFits(s: State, h: nat, ks: set<Key>)
    requires Fits(s, h) && GraduateAll(s, h, ks).Ok?
    ensures Fits(GraduateAll(s, h, ks).value, h)
    decreases ks
  {
    hide GraduateOne, Fits;
    if ks != {} {
      var v := Least(ks);
      OneFits(s, h, v);
      GraduateFits(GraduateOne(s, h, v).value, h, ks - {v});
    }
  }

  lemma PaydayFits(s: State, h: nat)
    requires Fits(s, h) && Payday(s, h).Ok?
    ensures Fits(Payday(s, h).value, h)
  {
    hide NoDust, NotCrowded;
  }

  lemma OpenFits(s: State, h: nat)
    requires IsBoundary(h) && Open(s, h).Ok? && Fits(s, h)
    ensures Fits(Open(s, h).value, h)
  {
    hide Settle, Payday, GraduateAll, Graduates, NoDust, NotCrowded, LocksFit;
    var s0 := ActivateCommissions(s, h);
    SettleOnly(s0, h);
    var s1 := Settle(s0, h).value;
    PaydayFits(s1, h);
    var s2 := Payday(s1, h).value;
    GraduateFits(s2, h, Graduates(s2, h));
  }

  lemma RestFits(s: State, h: nat, tb: Tiebreak)
    requires h >= EPOCH && RuleN(s, h, tb).Ok? && Close(RuleN(s, h, tb).value, h, tb).Ok? && Fits(s, h)
    ensures Fits(Close(RuleN(s, h, tb).value, h, tb).value, h)
  {
    hide RuleN, Close, NoDust, NotCrowded, LocksFit;
    RestPays(s, h, tb);
  }

  lemma BlockFits(s: State, b: Block)
    requires ApplyBlock(s, b).Ok? && Fits(s, s.height)
    ensures Fits(ApplyBlock(s, b).value, s.height + 1) && ApplyBlock(s, b).value.height == s.height + 1
  {
    hide RunBoundary, ApplyItems, NoDust, NotCrowded, LocksFit;
    var h, u := s.height + 1, BeforeBoundary(s, b);
    Older(s.coins, s.height);
    ItemsLimits(s, h, b.items);
    ItemsLocks(s, h, b.items);
    if IsBoundary(h) { BoundaryFits(u, h, b.tb); }
  }

  lemma BoundaryFits(s: State, h: nat, tb: Tiebreak)
    requires IsBoundary(h) && RunBoundary(s, h, tb).Ok? && Fits(s, h)
    ensures Fits(RunBoundary(s, h, tb).value, h)
  {
    hide Open, RuleN, Close, Fits;
    OpenFits(s, h);
    RestFits(Open(s, h).value, h, tb);
  }

  lemma Older(coins: map<CoinId, Coin>, h: nat)
    requires LocksFit(coins, h)
    ensures LocksFit(coins, h + 1)
  {
  }

  /** Over every run the numbers hold. */
  lemma {:induction false} RunFits(s: State, blocks: seq<Block>)
    requires Run(s, blocks).Ok? && Fits(s, s.height)
    ensures Fits(Run(s, blocks).value, s.height + |blocks|) && Run(s, blocks).value.height == s.height + |blocks|
    decreases |blocks|
  {
    hide ApplyBlock, Fits;
    if blocks != [] {
      var n := |blocks| - 1;
      RunFits(s, blocks[..n]);
      BlockFits(Run(s, blocks[..n]).value, blocks[n]);
    }
  }

  /** From genesis on. */
  lemma GenesisFits(p: Params, vals: map<Key, Validator>, pool: nat, allocs: map<nat, Allocation>, tb: Tiebreak,
                    blocks: seq<Block>)
    requires Run(Genesis(p, vals, pool, allocs, tb), blocks).Ok?
    ensures Fits(Run(Genesis(p, vals, pool, allocs, tb), blocks).value, |blocks|)
  {
    hide Run, CommitteeFrom;
    RunFits(Genesis(p, vals, pool, allocs, tb), blocks);
  }
}
