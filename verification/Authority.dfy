/** Who can change what: a validator's row, a delegation and a coin change
    only through an item their own key signed, or at a boundary by the rules of
    the boundary. */
module Authority {
  import opened Sums
  import opened Ledger
  import opened Transactions
  import opened Settlement
  import opened Committee
  import opened Boundary
  import opened Invariant
  import opened BoundaryProofs
  import opened Runs

  // ── items by whom they speak for ────────────────────────────────────

  predicate StakesKey(t: Tx, v: Key) { t.Stake? && t.staker == v && t.signer == v }

  predicate LeavesWith(t: Tx, v: Key) { t.Unstake? && t.validator == v && t.signer == v }

  predicate SetsTerms(t: Tx, v: Key) { t.SetCommission? && t.validator == v && t.signer == v }

  predicate Adds(t: Tx, p: Pair) { t.Delegate? && t.pair == p && t.signer == p.delegator }

  predicate Withdraws(t: Tx, p: Pair) { t.Undelegate? && t.pair == p && t.signer == p.delegator }

  /** The item spends the coin, with its owner's signature. */
  predicate Spends(t: Tx, c: CoinId, owner: Key) { !t.Claim? && c in t.f.inputs && owner in t.f.signers }

  // ── one item ────────────────────────────────────────────────────────

  /** A row's own: everything but the delegations on it and its misses. */
  datatype Own = Own(status: Status, bond: nat, commission: nat, pending: nat, effective: nat, since: nat, to: Key)

  function OwnOf(row: Validator): Own {
    Own(row.status, row.selfStake, row.commission, row.pendingCommission, row.pendingEffective,
        row.activeSince, row.destination)
  }

  /** How one item may move a row: leave, be staked, set its terms. */
  ghost predicate RowMoved(a: map<Key, Validator>, b: map<Key, Validator>, t: Tx, v: Key) {
    if v !in a then v in b ==> StakesKey(t, v) && b[v].status.Active?
    else
      && v in b
      && (OwnOf(b[v]) == OwnOf(a[v])
          || (LeavesWith(t, v) && (a[v].status.Active? || a[v].status.Eligible?)
              && OwnOf(b[v]) == OwnOf(a[v]).(status := Retiring))
          || (StakesKey(t, v) && a[v].status.Unstaked? && b[v].status.Active?)
          || (SetsTerms(t, v) && b[v].status == a[v].status && b[v].selfStake == a[v].selfStake
              && b[v].destination == a[v].destination))
  }

  ghost predicate StakeMoved(a: map<Pair, nat>, b: map<Pair, nat>, t: Tx, p: Pair) {
    && (At(b, p) > At(a, p) ==> Adds(t, p) && At(b, p) == At(a, p) + t.amount)
    && (At(b, p) < At(a, p) ==> Withdraws(t, p) && At(b, p) == At(a, p) - t.amount)
  }

  ghost predicate CoinMoved(a: map<CoinId, Coin>, b: map<CoinId, Coin>, h: nat, t: Tx, c: CoinId) {
    c in a && (c !in b || b[c] != a[c]) ==> Spends(t, c, a[c].owner) && a[c].unlock < h
  }

  lemma StakeItem(s: State, h: nat, t: Tx, v: Key, p: Pair)
    requires t.Stake? && ExecStake(s, h, t).Applied?
    ensures var u := ExecStake(s, h, t).state;
            RowMoved(s.validators, u.validators, t, v) && StakeMoved(s.delegations, u.delegations, t, p)
  {
    hide FundingOk, Moved;
  }

  lemma UnstakeItem(s: State, h: nat, t: Tx, v: Key, p: Pair)
    requires t.Unstake? && ExecUnstake(s, h, t).Applied?
    ensures var u := ExecUnstake(s, h, t).state;
            RowMoved(s.validators, u.validators, t, v) && StakeMoved(s.delegations, u.delegations, t, p)
  {
    hide FundingOk, Moved;
  }

  lemma DelegateItem(s: State, h: nat, t: Tx, v: Key, p: Pair)
    requires t.Delegate? && ExecDelegate(s, h, t).Applied?
    ensures var u := ExecDelegate(s, h, t).state;
            RowMoved(s.validators, u.validators, t, v) && StakeMoved(s.delegations, u.delegations, t, p)
  {
    hide FundingOk, Moved, DelegatorCount;
  }

  lemma UndelegateItem(s: State, h: nat, t: Tx, v: Key, p: Pair)
    requires t.Undelegate? && ExecUndelegate(s, h, t).Applied?
    ensures var u := ExecUndelegate(s, h, t).state;
            RowMoved(s.validators, u.validators, t, v) && StakeMoved(s.delegations, u.delegations, t, p)
  {
    hide FundingOk, Moved, PowerExit;
  }

  lemma CommissionItem(s: State, h: nat, t: Tx, v: Key, p: Pair)
    requires t.SetCommission? && ExecSetCommission(s, h, t).Applied?
    ensures var u := ExecSetCommission(s, h, t).state;
            RowMoved(s.validators, u.validators, t, v) && StakeMoved(s.delegations, u.delegations, t, p)
  {
    hide FundingOk, Moved;
  }

  lemma ItemMoves(s: State, h: nat, t: Tx, v: Key, p: Pair)
    ensures var u := ApplyItem(s, h, t);
            RowMoved(s.validators, u.validators, t, v) && StakeMoved(s.delegations, u.delegations, t, p)
  {
    hide FundingOk, Moved, ExecStake, ExecUnstake, ExecDelegate, ExecUndelegate, ExecSetCommission;
    if Exec(s, h, t).Applied? {
      match t {
        case Stake(_, _, _, _, _, _) => StakeItem(s, h, t, v, p);
        case Unstake(_, _, _) => UnstakeItem(s, h, t, v, p);
        case Delegate(_, _, _, _) => DelegateItem(s, h, t, v, p);
        case Undelegate(_, _, _, _, _) => UndelegateItem(s, h, t, v, p);
        case SetCommission(_, _, _, _) => CommissionItem(s, h, t, v, p);
        case _ =>
      }
    }
  }

  lemma LegMoves(coins: map<CoinId, Coin>, h: nat, f: Funding, minOut: nat, need: nat, c: CoinId)
    requires FundingOk(coins, h, f, minOut, need) && c in coins
    ensures c !in Moved(coins, f) || Moved(coins, f)[c] != coins[c] ==>
              c in f.inputs && coins[c].owner in f.signers && coins[c].unlock < h
  {
    hide OutputsOk, Minted, InSum;
  }

  lemma ItemCoin(s: State, h: nat, t: Tx, c: CoinId)
    ensures CoinMoved(s.coins, ApplyItem(s, h, t).coins, h, t, c)
  {
    hide FundingOk, Moved, PowerExit, DelegatorCount;
    if Exec(s, h, t).Applied? && c in s.coins {
      match t {
        case Spend(f) => LegMoves(s.coins, h, f, 1, 0, c);
        case Burn(f, amount) => LegMoves(s.coins, h, f, 0, amount, c);
        case Stake(f, _, _, bond, _, _) => LegMoves(s.coins, h, f, 0, bond, c);
        case Unstake(f, _, _) => LegMoves(s.coins, h, f, 0, 0, c);
        case Delegate(f, _, _, amount) => LegMoves(s.coins, h, f, 0, amount, c);
        case Undelegate(f, _, _, _, _) => LegMoves(s.coins, h, f, 0, 0, c);
        case SetCommission(f, _, _, _) => LegMoves(s.coins, h, f, 0, 0, c);
        case Claim(_) =>
      }
    }
  }

  // ── one boundary ────────────────────────────────────────────────────

  /** The row was leaving and has left. */
  ghost predicate Left(a: map<Key, Validator>, b: map<Key, Validator>, v: Key) {
    v in a && Leaving(a[v].status) && v in b && b[v].status.Unstaked?
  }

  /** A boundary moves a row's bond only when the row leaves for good, makes
      nobody ask to leave, and stakes nobody. */
  ghost predicate RowKept(a: map<Key, Validator>, b: map<Key, Validator>, v: Key) {
    && (v in a <==> v in b)
    && (v in a ==>
          && (b[v].status.Retiring? ==> a[v].status.Retiring?)
          && (Left(a, b, v) || (b[v].selfStake == a[v].selfStake && b[v].destination == a[v].destination)))
  }

  ghost predicate StakeKept(s: State, t: State, p: Pair) {
    At(t.delegations, p) == At(s.delegations, p)
    || (At(t.delegations, p) == 0 && Left(s.validators, t.validators, p.validator))
  }

  ghost predicate CoinKept(a: map<CoinId, Coin>, b: map<CoinId, Coin>, c: CoinId) {
    c in a ==> c in b && b[c] == a[c]
  }

  /** What the graduations of ks leave. */
  ghost predicate Spared(s: State, t: State, ks: set<Key>, v: Key, p: Pair, c: CoinId) {
    && t.validators.Keys == s.validators.Keys && CoinKept(s.coins, t.coins, c)
    && (v in s.validators && v !in ks ==> t.validators[v] == s.validators[v])
    && (v in s.validators && v in ks ==> t.validators[v].status.Unstaked?)
    && (p.validator !in ks ==> At(t.delegations, p) == At(s.delegations, p))
    && (p.validator in ks ==> At(t.delegations, p) == 0)
  }

  lemma OneSpared(s: State, h: nat, k: Key, v: Key, p: Pair, c: CoinId)
    requires k in s.validators && GraduateOne(s, h, k).Ok?
    ensures Spared(s, GraduateOne(s, h, k).value, {k}, v, p, c)
  {
    hide StakeSum, StakesFree, Released;
    ReleasedKeeps(s.coins, h, k, s.validators[k], s.delegations, c);
  }

  lemma ReleasedKeeps(coins: map<CoinId, Coin>, h: nat, k: Key, row: Validator, stakes: map<Pair, nat>, c: CoinId)
    requires BondOut(h, k) !in coins && StakesFree(coins, h, k, stakes)
    ensures CoinKept(coins, Released(coins, h, k, row, stakes), c)
  {
    hide StakesOn;
  }

  lemma SparedOn(s: State, t: State, u: State, k: Key, ks: set<Key>, v: Key, p: Pair, c: CoinId)
    requires Spared(s, t, {k}, v, p, c) && Spared(t, u, ks, v, p, c) && k !in ks
    ensures Spared(s, u, ks + {k}, v, p, c)
  {
  }

  lemma {:induction false} AllSpared(s: State, h: nat, ks: set<Key>, v: Key, p: Pair, c: CoinId)
    requires GraduateAll(s, h, ks).Ok?
    ensures Spared(s, GraduateAll(s, h, ks).value, ks, v, p, c)
    decreases ks
  {
    hide GraduateOne, Spared;
    if ks == {} {
      NoneGraduate(s, v, p, c);
    } else {
      var k := Least(ks);
      var t := GraduateOne(s, h, k).value;
      OneSpared(s, h, k, v, p, c);
      AllSpared(t, h, ks - {k}, v, p, c);
      SparedOn(s, t, GraduateAll(s, h, ks).value, k, ks - {k}, v, p, c);
      assert ks - {k} + {k} == ks;
    }
  }

  lemma NoneGraduate(s: State, v: Key, p: Pair, c: CoinId)
    ensures Spared(s, s, {}, v, p, c)
  {
  }

  lemma OpenKeepsOwn(s: State, h: nat, v: Key, p: Pair, c: CoinId)
    requires IsBoundary(h) && Open(s, h).Ok? && (p in s.delegations ==> p.validator in s.validators)
    ensures var t := Open(s, h).value;
            RowKept(s.validators, t.validators, v) && StakeKept(s, t, p) && CoinKept(s.coins, t.coins, c)
  {
    hide Settle, GraduateAll, SeatKeys;
    var s0 := ActivateCommissions(s, h);
    SettleOnly(s0, h);
    var s1 := Settle(s0, h).value;
    var s2 := Payday(s1, h).value;
    assert s2.validators == s0.validators && s2.delegations == s.delegations;
    var ks := Graduates(s2, h);
    AllSpared(s2, h, ks, v, p, c);
    AllSpared(s2, h, ks, p.validator, p, c);
  }

  lemma RestKeepsOwn(s: State, h: nat, tb: Tiebreak, v: Key)
    requires h >= EPOCH && RuleN(s, h, tb).Ok? && Close(RuleN(s, h, tb).value, h, tb).Ok?
    ensures var t := Close(RuleN(s, h, tb).value, h, tb).value;
            && (v in s.validators <==> v in t.validators) && t.coins == s.coins && t.delegations == s.delegations
            && (v in s.validators ==>
                  && t.validators[v].selfStake == s.validators[v].selfStake
                  && t.validators[v].destination == s.validators[v].destination
                  && (t.validators[v].status.Retiring? ==> s.validators[v].status.Retiring?)
                  && (s.validators[v].status.Unstaked? ==> t.validators[v].status.Unstaked?))
  {
    hide CommitteeFor, Charged, Due, LiveCopy, SeatKeys, Allowed, BondedKeys, RuleN, Close;
    RuleNKeepsOwn(s, h, tb, v);
    CloseKeepsOwn(RuleN(s, h, tb).value, h, tb, v);
  }

  lemma RuleNKeepsOwn(s: State, h: nat, tb: Tiebreak, v: Key)
    requires h >= EPOCH && RuleN(s, h, tb).Ok?
    ensures var t := RuleN(s, h, tb).value;
            && (v in s.validators <==> v in t.validators) && t.coins == s.coins && t.delegations == s.delegations
            && (v in s.validators ==>
                  && t.validators[v].selfStake == s.validators[v].selfStake
                  && t.validators[v].destination == s.validators[v].destination
                  && (t.validators[v].status == s.validators[v].status
                      || (s.validators[v].status.Active? && t.validators[v].status.AutoRetired?)))
  {
    hide CommitteeFor, Allowed, BondedKeys, Recount, Retire;
    RecountKeepsOwn(s, h, v);
    RetireKeepsOwn(Recount(s, h), v);
  }

  lemma RecountKeepsOwn(s: State, h: nat, v: Key)
    requires h >= EPOCH
    ensures var t := Recount(s, h);
            && (v in s.validators <==> v in t.validators) && t.coins == s.coins && t.delegations == s.delegations
            && (v in s.validators ==> OwnOf(t.validators[v]) == OwnOf(s.validators[v]))
  {
    hide Charged;
  }

  lemma RetireKeepsOwn(s: State, v: Key)
    ensures var t := Retire(s);
            && (v in s.validators <==> v in t.validators) && t.coins == s.coins && t.delegations == s.delegations
            && (v in s.validators ==>
                  && t.validators[v].selfStake == s.validators[v].selfStake
                  && t.validators[v].destination == s.validators[v].destination
                  && (t.validators[v].status == s.validators[v].status
                      || (s.validators[v].status.Active? && t.validators[v].status.AutoRetired?)))
  {
  }

  lemma CloseKeepsOwn(s: State, h: nat, tb: Tiebreak, v: Key)
    requires h >= EPOCH && Close(s, h, tb).Ok?
    ensures var t := Close(s, h, tb).value;
            && (v in s.validators <==> v in t.validators) && t.coins == s.coins && t.delegations == s.delegations
            && (v in s.validators ==>
                  && t.validators[v].selfStake == s.validators[v].selfStake
                  && t.validators[v].destination == s.validators[v].destination
                  && (t.validators[v].status == s.validators[v].status
                      || (Bonded(s.validators[v].status) && Bonded(t.validators[v].status))))
  {
    hide CommitteeFor, LiveCopy, SeatKeys;
  }

  lemma BoundaryKeepsOwn(s: State, h: nat, tb: Tiebreak, v: Key, p: Pair, c: CoinId)
    requires IsBoundary(h) && RunBoundary(s, h, tb).Ok? && (p in s.delegations ==> p.validator in s.validators)
    ensures var t := RunBoundary(s, h, tb).value;
            RowKept(s.validators, t.validators, v) && StakeKept(s, t, p) && CoinKept(s.coins, t.coins, c)
  {
    hide Open, RuleN, Close;
    OpenKeepsOwn(s, h, v, p, c);
    OpenKeepsOwn(s, h, p.validator, p, c);
    RestKeepsOwn(Open(s, h).value, h, tb, v);
    RestKeepsOwn(Open(s, h).value, h, tb, p.validator);
  }

  // ── blocks ──────────────────────────────────────────────────────────

  /** The bond, or where it goes back to, changed. */
  predicate Rebonded(a: map<Key, Validator>, b: map<Key, Validator>, v: Key) {
    v in a && v in b && (b[v].selfStake != a[v].selfStake || b[v].destination != a[v].destination)
  }

  predicate HasLeave(items: seq<Tx>, v: Key) { exists i :: 0 <= i < |items| && LeavesWith(items[i], v) }

  predicate HasStake(items: seq<Tx>, v: Key) { exists i :: 0 <= i < |items| && StakesKey(items[i], v) }

  predicate HasAdd(items: seq<Tx>, p: Pair) { exists i :: 0 <= i < |items| && Adds(items[i], p) }

  predicate HasWithdraw(items: seq<Tx>, p: Pair) { exists i :: 0 <= i < |items| && Withdraws(items[i], p) }

  predicate HasSpend(items: seq<Tx>, c: CoinId, owner: Key) {
    exists i :: 0 <= i < |items| && Spends(items[i], c, owner)
  }

  /** What the items of a block, taken together, need a signature for. */
  ghost predicate Signed(s: State, t: State, h: nat, items: seq<Tx>, v: Key, p: Pair, c: CoinId) {
    && (v in s.validators ==> v in t.validators)
    && (v in t.validators && t.validators[v].status.Retiring? ==>
          HasLeave(items, v) || (v in s.validators && s.validators[v].status.Retiring?))
    && (v in t.validators && v !in s.validators ==> HasStake(items, v))
    && (Rebonded(s.validators, t.validators, v) ==> HasStake(items, v))
    && (At(t.delegations, p) > At(s.delegations, p) ==> HasAdd(items, p))
    && (At(t.delegations, p) < At(s.delegations, p) ==> HasWithdraw(items, p))
    && (c in s.coins && (c !in t.coins || t.coins[c] != s.coins[c]) ==>
          HasSpend(items, c, s.coins[c].owner) && s.coins[c].unlock < h)
  }

  lemma FirstSigned(s: State, h: nat, items: seq<Tx>, v: Key, p: Pair, c: CoinId)
    requires items != []
    ensures Signed(s, ApplyItem(s, h, items[0]), h, items, v, p, c)
  {
    hide ApplyItem;
    ItemMoves(s, h, items[0], v, p);
    ItemCoin(s, h, items[0], c);
  }

  lemma HasMore(items: seq<Tx>, v: Key, p: Pair, c: CoinId, k: Key)
    requires items != []
    ensures HasLeave(items[1..], v) ==> HasLeave(items, v)
    ensures HasStake(items[1..], v) ==> HasStake(items, v)
    ensures HasAdd(items[1..], p) ==> HasAdd(items, p)
    ensures HasWithdraw(items[1..], p) ==> HasWithdraw(items, p)
    ensures HasSpend(items[1..], c, k) ==> HasSpend(items, c, k)
  {
    var rest := items[1..];
    assert forall i :: 0 <= i < |rest| ==> rest[i] == items[i + 1];
  }

  lemma SignedOn(s: State, t: State, u: State, h: nat, items: seq<Tx>, v: Key, p: Pair, c: CoinId)
    requires items != [] && Signed(s, t, h, items, v, p, c) && Signed(t, u, h, items[1..], v, p, c)
    ensures Signed(s, u, h, items, v, p, c)
  {
    hide HasLeave, HasStake, HasAdd, HasWithdraw, HasSpend;
    if c in s.coins { HasMore(items, v, p, c, s.coins[c].owner); }
    HasMore(items, v, p, c, v);
  }

  lemma NothingSigned(s: State, h: nat, v: Key, p: Pair, c: CoinId)
    ensures Signed(s, s, h, [], v, p, c)
  {
  }

  lemma {:induction false} ItemsSigned(s: State, h: nat, items: seq<Tx>, v: Key, p: Pair, c: CoinId)
    ensures Signed(s, ApplyItems(s, h, items), h, items, v, p, c)
    decreases |items|
  {
    hide ApplyItem, Signed;
    if items == [] {
      NothingSigned(s, h, v, p, c);
    } else {
      var t := ApplyItem(s, h, items[0]);
      FirstSigned(s, h, items, v, p, c);
      ItemsSigned(t, h, items[1..], v, p, c);
      SignedOn(s, t, ApplyItems(s, h, items), h, items, v, p, c);
    }
  }

  // ── runs ────────────────────────────────────────────────────────────

  predicate LeaveAsked(blocks: seq<Block>, v: Key) {
    exists j :: 0 <= j < |blocks| && HasLeave(blocks[j].items, v)
  }

  predicate StakeAsked(blocks: seq<Block>, v: Key) {
    exists j :: 0 <= j < |blocks| && HasStake(blocks[j].items, v)
  }

  predicate AddAsked(blocks: seq<Block>, p: Pair) {
    exists j :: 0 <= j < |blocks| && HasAdd(blocks[j].items, p)
  }

  predicate WithdrawAsked(blocks: seq<Block>, p: Pair) {
    exists j :: 0 <= j < |blocks| && HasWithdraw(blocks[j].items, p)
  }

  predicate SpendAsked(blocks: seq<Block>, c: CoinId, owner: Key) {
    exists j :: 0 <= j < |blocks| && HasSpend(blocks[j].items, c, owner)
  }

  /** At some boundary of the run the validator, leaving by then, left. */
  ghost predicate LeftIn(s: State, blocks: seq<Block>, v: Key)
    requires Run(s, blocks).Ok?
    decreases |blocks|
  {
    blocks != []
    && var head, b := blocks[..|blocks| - 1], blocks[|blocks| - 1];
       var t := Run(s, head).value;
       LeftIn(s, head, v)
       || (IsBoundary(t.height + 1) && Left(BeforeBoundary(t, b).validators, Run(s, blocks).value.validators, v))
  }

  /** Over every run: a key is asked to leave, staked, staked on, withdrawn
      from or spent only by items it signed itself, and otherwise a bond and a
      delegation move only at the boundary the validator leaves at. */
  ghost predicate RunSigned(s: State, blocks: seq<Block>, v: Key, p: Pair, c: CoinId)
    requires Run(s, blocks).Ok?
  {
    var t := Run(s, blocks).value;
    && (v in s.validators ==> v in t.validators)
    && (v in t.validators && t.validators[v].status.Retiring? ==>
          LeaveAsked(blocks, v) || (v in s.validators && s.validators[v].status.Retiring?))
    && (v in t.validators && v !in s.validators ==> StakeAsked(blocks, v))
    && (Rebonded(s.validators, t.validators, v) ==> StakeAsked(blocks, v) || LeftIn(s, blocks, v))
    && (At(t.delegations, p) > At(s.delegations, p) ==> AddAsked(blocks, p))
    && (At(t.delegations, p) < At(s.delegations, p) ==>
          WithdrawAsked(blocks, p) || LeftIn(s, blocks, p.validator))
    && (c in s.coins && (c !in t.coins || t.coins[c] != s.coins[c]) ==> SpendAsked(blocks, c, s.coins[c].owner))
  }

  /** A block on top of a run. */
  lemma BlockSigned(t: State, b: Block, v: Key, p: Pair, c: CoinId)
    requires Inv(t) && ApplyBlock(t, b).Ok?
    ensures var h, u, w := t.height + 1, BeforeBoundary(t, b), ApplyBlock(t, b).value;
            && Signed(t, u, h, b.items, v, p, c)
            && (!IsBoundary(h) ==>
                  w.validators == u.validators && w.delegations == u.delegations && w.coins == u.coins)
            && (IsBoundary(h) ==>
                  RowKept(u.validators, w.validators, v) && StakeKept(u, w, p) && CoinKept(u.coins, w.coins, c))
  {
    hide Inv, RunBoundary, ApplyItems, Signed, RowKept;
    var h, u := t.height + 1, BeforeBoundary(t, b);
    ItemsSigned(t, h, b.items, v, p, c);
    SameSigned(t, ApplyItems(t, h, b.items), u, h, b.items, v, p, c);
    BeforeKeeps(t, b);
    if IsBoundary(h) {
      RowsOfStakes(u, p);
      BoundaryKeepsOwn(u, h, b.tb, v, p, c);
    }
  }

  lemma RowsOfStakes(s: State, p: Pair)
    requires Inv(s)
    ensures p in s.delegations ==> p.validator in s.validators
  {
    hide CountOk, IdsOk, CopiesOk, SnapshotsOk, GatesOk, StakesCovered, BondsCovered, Conserved, RowOk;
  }

  lemma SameSigned(s: State, t: State, u: State, h: nat, items: seq<Tx>, v: Key, p: Pair, c: CoinId)
    requires Signed(s, t, h, items, v, p, c)
    requires u.validators == t.validators && u.delegations == t.delegations && u.coins == t.coins
    ensures Signed(s, u, h, items, v, p, c)
  {
  }

  lemma AskedMore(blocks: seq<Block>, v: Key, p: Pair, c: CoinId, k: Key)
    requires blocks != []
    ensures var n := |blocks| - 1;
            var head, items := blocks[..n], blocks[n].items;
            && (LeaveAsked(head, v) || HasLeave(items, v) ==> LeaveAsked(blocks, v))
            && (StakeAsked(head, v) || HasStake(items, v) ==> StakeAsked(blocks, v))
            && (AddAsked(head, p) || HasAdd(items, p) ==> AddAsked(blocks, p))
            && (WithdrawAsked(head, p) || HasWithdraw(items, p) ==> WithdrawAsked(blocks, p))
            && (SpendAsked(head, c, k) || HasSpend(items, c, k) ==> SpendAsked(blocks, c, k))
  {
    hide HasLeave, HasStake, HasAdd, HasWithdraw, HasSpend;
    var n := |blocks| - 1;
    assert forall j :: 0 <= j < n ==> blocks[..n][j] == blocks[j];
  }

  lemma NoBlocksSigned(s: State, v: Key, p: Pair, c: CoinId)
    ensures RunSigned(s, [], v, p, c)
  {
  }

  lemma RunSignedOn(s: State, blocks: seq<Block>, v: Key, p: Pair, c: CoinId)
    requires blocks != [] && Run(s, blocks).Ok? && Run(s, blocks[..|blocks| - 1]).Ok?
    requires RunSigned(s, blocks[..|blocks| - 1], v, p, c)
    requires var t, b := Run(s, blocks[..|blocks| - 1]).value, blocks[|blocks| - 1];
             var h, u, w := t.height + 1, BeforeBoundary(t, b), Run(s, blocks).value;
             && Signed(t, u, h, b.items, v, p, c)
             && (!IsBoundary(h) ==>
                   w.validators == u.validators && w.delegations == u.delegations && w.coins == u.coins)
             && (IsBoundary(h) ==>
                   RowKept(u.validators, w.validators, v) && StakeKept(u, w, p) && CoinKept(u.coins, w.coins, c))
    ensures RunSigned(s, blocks, v, p, c)
  {
    hide Run, BeforeBoundary, HasLeave, HasStake, HasAdd, HasWithdraw, HasSpend, LeaveAsked, StakeAsked, AddAsked;
    hide WithdrawAsked, SpendAsked, IsBoundary;
    AskedMore(blocks, v, p, c, v);
    if c in s.coins { AskedMore(blocks, v, p, c, s.coins[c].owner); }
  }

  lemma {:induction false} OnlySigned(s: State, blocks: seq<Block>, v: Key, p: Pair, c: CoinId)
    requires Inv(s) && Run(s, blocks).Ok?
    ensures RunSigned(s, blocks, v, p, c)
    decreases |blocks|
  {
    hide Inv, ApplyBlock, RunSigned, Signed, RowKept, StakeKept, CoinKept, BeforeBoundary;
    if blocks == [] {
      NoBlocksSigned(s, v, p, c);
    } else {
      var n := |blocks| - 1;
      OnlySigned(s, blocks[..n], v, p, c);
      RunKeeps(s, blocks[..n]);
      BlockSigned(Run(s, blocks[..n]).value, blocks[n], v, p, c);
      RunSignedOn(s, blocks, v, p, c);
    }
  }
}
