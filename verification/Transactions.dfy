/** The items of a block: what each one demands, and the state it leaves.
    An item that is refused leaves the state it found (its savepoint). */
module Transactions {
  import opened Sums
  import opened Ledger

  datatype Output = Output(owner: Key, amount: nat, seed: nat)

  /** The CORE leg every item carries: coins in, change out, and the fee. */
  datatype Funding = Funding(
    inputs: set<CoinId>, outputs: seq<Output>, signers: set<Key>, fee: nat)

  datatype Tx =
    | Spend(f: Funding)
    | Burn(f: Funding, amount: nat)
    | Stake(f: Funding, signer: Key, staker: Key, bond: nat, commission: nat, destination: Key)
    | Unstake(f: Funding, signer: Key, validator: Key)
    | Delegate(f: Funding, signer: Key, pair: Pair, amount: nat)
    | Undelegate(f: Funding, signer: Key, pair: Pair, amount: nat, intent: nat)
    | SetCommission(f: Funding, signer: Key, validator: Key, bps: nat)
    | Claim(claim: nat)

  datatype Outcome = Applied(state: State) | Refused

  // ── the funding leg ─────────────────────────────────────────────────

  function IdOf(o: Output): CoinId { WireOut(o.owner, o.seed) }

  ghost function InSum(coins: map<CoinId, Coin>, ids: set<CoinId>): nat {
    Sum(map c | c in Amounts(coins) && c in ids :: Amounts(coins)[c])
  }

  function OutSum(outs: seq<Output>): nat {
    if outs == [] then 0 else OutSum(outs[..|outs| - 1]) + outs[|outs| - 1].amount
  }

  /** The unlocked coins the outputs create. */
  function Minted(outs: seq<Output>): map<CoinId, Coin> {
    if outs == [] then map[]
    else
      var o := outs[|outs| - 1];
      Minted(outs[..|outs| - 1])[IdOf(o) := Coin(o.owner, o.amount, 0, Plain)]
  }

  /** Nonzero amounts, and no output named twice. */
  predicate OutputsOk(outs: seq<Output>) {
    outs == []
    || (var o := outs[|outs| - 1];
        OutputsOk(outs[..|outs| - 1]) && o.amount > 0 && IdOf(o) !in Minted(outs[..|outs| - 1]))
  }

  predicate InputsOk(coins: map<CoinId, Coin>, h: nat, f: Funding) {
    && f.inputs <= coins.Keys
    && forall c :: c in f.inputs ==> coins[c].unlock < h && coins[c].owner in f.signers
  }

  /** Inputs exist, are unlocked at `h` and owned by a signer; nothing is
      created twice or already there; and in == out + fee + `need`. Inputs
      arrive strictly ascending, so they are a set. */
  ghost predicate FundingOk(coins: map<CoinId, Coin>, h: nat, f: Funding, minOut: nat, need: nat) {
    && 1 <= |f.inputs| <= MAX_INPUTS
    && minOut <= |f.outputs| <= MAX_OUTPUTS
    && InputsOk(coins, h, f)
    && OutputsOk(f.outputs)
    && Minted(f.outputs).Keys !! coins.Keys
    && f.fee >= MIN_FEE
    && InSum(coins, f.inputs) == OutSum(f.outputs) + f.fee + need
  }

  function Moved(coins: map<CoinId, Coin>, f: Funding): map<CoinId, Coin> {
    coins - f.inputs + Minted(f.outputs)
  }

  /** Coins moved, the fee credited to the reward pool. */
  function Pay(s: State, f: Funding): State {
    s.(coins := Moved(s.coins, f), pool := s.pool + f.fee)
  }

  // ── the items ───────────────────────────────────────────────────────

  ghost function ExecStake(s: State, h: nat, t: Tx): Outcome
    requires t.Stake?
  {
    if !FundingOk(s.coins, h, t.f, 0, t.bond) || t.signer != t.staker
       || t.commission > COMMISSION_MAX
       || !(s.params.bondMin <= t.bond <= s.params.bondMax) then Refused
    // one row per key: only a graduated row, which holds nothing, is revived
    else if t.staker in s.validators
            && var v := s.validators[t.staker];
               !v.status.Unstaked? || v.selfStake != 0 || v.totalDelegated != 0 || v.externalDelegated != 0
    then Refused
    else if s.activeCount + 1 > MAX_VALIDATORS then Refused
    else
      var row := Validator(Active, t.bond, 0, 0, t.commission, 0, 0, h, t.destination, 0);
      Applied(Pay(s, t.f).(validators := s.validators[t.staker := row], activeCount := s.activeCount + 1))
  }

  ghost function ExecUnstake(s: State, h: nat, t: Tx): Outcome
    requires t.Unstake?
  {
    if !FundingOk(s.coins, h, t.f, 0, 0) || t.signer != t.validator
       || t.validator !in s.validators || !Bonded(s.validators[t.validator].status) then Refused
    else
      var row := s.validators[t.validator].(status := Retiring);
      Applied(Pay(s, t.f).(validators := s.validators[t.validator := row]))
  }

  ghost function ExecDelegate(s: State, h: nat, t: Tx): Outcome
    requires t.Delegate?
  {
    if !FundingOk(s.coins, h, t.f, 0, t.amount) || t.signer != t.pair.delegator
       || !(1 <= t.amount <= TOTAL_SUPPLY)
       || t.pair.validator !in s.validators
       || !Bonded(s.validators[t.pair.validator].status) then Refused
    else if t.pair !in s.delegations
            && (t.amount < MIN_DELEGATION
                || DelegatorCount(s.delegations, t.pair.validator) >= MAX_DELEGATORS) then Refused
    else
      var v := s.validators[t.pair.validator];
      var row := v.(totalDelegated := v.totalDelegated + t.amount,
                    externalDelegated := v.externalDelegated + t.amount);
      Applied(Pay(s, t.f).(validators := s.validators[t.pair.validator := row],
                           delegations := s.delegations[t.pair := At(s.delegations, t.pair) + t.amount]))
  }

  function DelegatorCount(stakes: map<Pair, nat>, v: Key): nat {
    |set p | p in stakes && p.validator == v|
  }

  ghost function ExecUndelegate(s: State, h: nat, t: Tx): Outcome
    requires t.Undelegate?
  {
    if !FundingOk(s.coins, h, t.f, 0, 0) || t.signer != t.pair.delegator
       || t.pair !in s.delegations
       || !(1 <= t.amount <= s.delegations[t.pair])
       || t.pair.validator !in s.validators
       || UndelegateOut(t.intent) in s.coins then Refused
    else
      var left := s.delegations[t.pair] - t.amount;
      var v := s.validators[t.pair.validator];
      if 0 < left < MIN_DELEGATION || v.totalDelegated < t.amount || v.externalDelegated < t.amount
      then Refused
      else
        var row := v.(totalDelegated := v.totalDelegated - t.amount,
                      externalDelegated := v.externalDelegated - t.amount);
        var release := Coin(t.pair.delegator, t.amount,
                            PowerExit(h) + UNDELEGATE_LOCK_EPOCHS * EPOCH, FromStake(t.pair));
        var paid := Pay(s, t.f);
        Applied(paid.(coins := paid.coins[UndelegateOut(t.intent) := release],
                      validators := s.validators[t.pair.validator := row],
                      delegations := if left == 0 then s.delegations - {t.pair}
                                     else s.delegations[t.pair := left]))
  }

  ghost function ExecSetCommission(s: State, h: nat, t: Tx): Outcome
    requires t.SetCommission?
  {
    if !FundingOk(s.coins, h, t.f, 0, 0) || t.signer != t.validator || t.bps > COMMISSION_MAX
       || t.validator !in s.validators || !Counted(s.validators[t.validator].status) then Refused
    else
      var v := s.validators[t.validator];
      var row :=
        if t.bps > v.commission then v.(pendingCommission := t.bps, pendingEffective := h + 2 * EPOCH)
        else v.(commission := t.bps, pendingCommission := 0, pendingEffective := 0);
      Applied(Pay(s, t.f).(validators := s.validators[t.validator := row]))
  }

  ghost function ExecClaim(s: State, t: Tx): Outcome
    requires t.Claim?
  {
    if t.claim !in s.allocations || s.allocations[t.claim].amount == 0
       || ClaimOut(t.claim) in s.coins then Refused
    else
      var a := s.allocations[t.claim];
      Applied(s.(coins := s.coins[ClaimOut(t.claim) := Coin(a.owner, a.amount, 0, Plain)],
                 allocations := s.allocations - {t.claim}))
  }

  /** One item executed in block `h`. */
  ghost function Exec(s: State, h: nat, t: Tx): Outcome {
    match t
    case Spend(f) => if FundingOk(s.coins, h, f, 1, 0) then Applied(Pay(s, f)) else Refused
    case Burn(f, amount) =>
      if amount >= 1 && FundingOk(s.coins, h, f, 0, amount)
      then Applied(Pay(s, f).(burned := s.burned + amount)) else Refused
    case Stake(_, _, _, _, _, _) => ExecStake(s, h, t)
    case Unstake(_, _, _) => ExecUnstake(s, h, t)
    case Delegate(_, _, _, _) => ExecDelegate(s, h, t)
    case Undelegate(_, _, _, _, _) => ExecUndelegate(s, h, t)
    case SetCommission(_, _, _, _) => ExecSetCommission(s, h, t)
    case Claim(_) => ExecClaim(s, t)
  }

  /** The savepoint rule: a refused item changes nothing. */
  ghost function ApplyItem(s: State, h: nat, t: Tx): State {
    var r := Exec(s, h, t);
    if r.Applied? then r.state else s
  }

  // ── what an item leaves alone ───────────────────────────────────────

  /** The fee goes to the pool; heights, copies, sets, attendance, accruals and
      the chain's parameters stay, and burns only grow. */
  ghost predicate Touches(s: State, t: State, fee: nat) {
    && t == s.(coins := t.coins, pool := s.pool + fee, validators := t.validators, delegations := t.delegations,
               activeCount := t.activeCount, allocations := t.allocations, burned := t.burned)
    && s.burned <= t.burned
  }

  lemma StakeTouches(s: State, h: nat, t: Tx)
    requires t.Stake? && ExecStake(s, h, t).Applied?
    ensures Touches(s, ExecStake(s, h, t).state, t.f.fee)
  {
    hide FundingOk, Moved;
  }

  lemma UnstakeTouches(s: State, h: nat, t: Tx)
    requires t.Unstake? && ExecUnstake(s, h, t).Applied?
    ensures Touches(s, ExecUnstake(s, h, t).state, t.f.fee)
  {
    hide FundingOk, Moved;
  }

  lemma DelegateTouches(s: State, h: nat, t: Tx)
    requires t.Delegate? && ExecDelegate(s, h, t).Applied?
    ensures Touches(s, ExecDelegate(s, h, t).state, t.f.fee)
  {
    hide FundingOk, Moved, DelegatorCount;
  }

  lemma UndelegateTouches(s: State, h: nat, t: Tx)
    requires t.Undelegate? && ExecUndelegate(s, h, t).Applied?
    ensures Touches(s, ExecUndelegate(s, h, t).state, t.f.fee)
  {
    hide FundingOk, Moved, PowerExit;
  }

  lemma CommissionTouches(s: State, h: nat, t: Tx)
    requires t.SetCommission? && ExecSetCommission(s, h, t).Applied?
    ensures Touches(s, ExecSetCommission(s, h, t).state, t.f.fee)
  {
    hide FundingOk, Moved;
  }

  lemma ClaimTouches(s: State, t: Tx)
    requires t.Claim? && ExecClaim(s, t).Applied?
    ensures Touches(s, ExecClaim(s, t).state, 0)
  {
  }

  lemma ExecTouches(s: State, h: nat, t: Tx)
    ensures Exec(s, h, t).Applied? ==>
              Touches(s, Exec(s, h, t).state, if t.Claim? then 0 else t.f.fee)
  {
    hide FundingOk, Moved, ExecStake, ExecUnstake, ExecDelegate, ExecUndelegate, ExecSetCommission, ExecClaim;
    if Exec(s, h, t).Applied? {
      match t {
        case Spend(_) =>
        case Burn(_, _) =>
        case Stake(_, _, _, _, _, _) => StakeTouches(s, h, t);
        case Unstake(_, _, _) => UnstakeTouches(s, h, t);
        case Delegate(_, _, _, _) => DelegateTouches(s, h, t);
        case Undelegate(_, _, _, _, _) => UndelegateTouches(s, h, t);
        case SetCommission(_, _, _, _) => CommissionTouches(s, h, t);
        case Claim(_) => ClaimTouches(s, t);
      }
    }
  }

  // ── the coins of a funded item ──────────────────────────────────────

  lemma SpentSum(coins: map<CoinId, Coin>, ids: set<CoinId>)
    ensures Sum(Amounts(coins - ids)) + InSum(coins, ids) == Sum(Amounts(coins))
  {
    SumSplit(Amounts(coins), ids);
    assert Amounts(coins - ids) == Amounts(coins) - ids;
  }

  lemma UnionSet(a: map<CoinId, Coin>, b: map<CoinId, Coin>, id: CoinId, c: Coin)
    ensures a + b[id := c] == (a + b)[id := c]
  {
  }

  lemma {:induction false} MintedSum(coins: map<CoinId, Coin>, outs: seq<Output>)
    requires OutputsOk(outs) && Minted(outs).Keys !! coins.Keys
    ensures Sum(Amounts(coins + Minted(outs))) == Sum(Amounts(coins)) + OutSum(outs)
  {
    if outs == [] {
      assert coins + Minted(outs) == coins;
    } else {
      var head, o := outs[..|outs| - 1], outs[|outs| - 1];
      var id, c := IdOf(o), Coin(o.owner, o.amount, 0, Plain);
      assert Minted(outs) == Minted(head)[id := c];
      MintedSum(coins, head);
      AddCoin(coins + Minted(head), id, c);
      UnionSet(coins, Minted(head), id, c);
    }
  }

  lemma {:induction false} MintedPlain(outs: seq<Output>)
    ensures forall c :: c in Minted(outs) ==>
              c.WireOut? && Minted(outs)[c].unlock == 0 && Minted(outs)[c].origin == Plain
  {
    if outs != [] { MintedPlain(outs[..|outs| - 1]); }
  }

  /** Paying a funding leg moves exactly its fee and `need` out of the coins. */
  lemma PaySum(coins: map<CoinId, Coin>, h: nat, f: Funding, minOut: nat, need: nat)
    requires FundingOk(coins, h, f, minOut, need)
    ensures Sum(Amounts(Moved(coins, f))) + f.fee + need == Sum(Amounts(coins))
  {
    SpentSum(coins, f.inputs);
    MintedSum(coins - f.inputs, f.outputs);
  }

  /** A funded item keeps every coin still locked at `h`, and what it creates
      is a plain unlocked output. */
  lemma PayCoins(coins: map<CoinId, Coin>, h: nat, f: Funding, minOut: nat, need: nat)
    requires FundingOk(coins, h, f, minOut, need)
    ensures forall c :: c in coins && coins[c].unlock >= h ==>
              c in Moved(coins, f) && Moved(coins, f)[c] == coins[c]
    ensures forall c :: c in Moved(coins, f) ==>
              || (c in coins && Moved(coins, f)[c] == coins[c])
              || (c.WireOut? && Moved(coins, f)[c].unlock == 0 && Moved(coins, f)[c].origin == Plain)
  {
    MintedPlain(f.outputs);
  }

  /** A spent id is free again: the output that was spent can be created once
      more, with any amount, because no table remembers it. */
  lemma SpentIdReturns(coins: map<CoinId, Coin>, f: Funding, o: Output)
    requires IdOf(o) in f.inputs && IdOf(o) !in Minted(f.outputs) && o.amount > 0
    ensures OutputsOk([o]) && Minted([o]).Keys !! Moved(coins, f).Keys
  {
    assert [o][..0] == [];
    assert Minted([o]) == map[][IdOf(o) := Coin(o.owner, o.amount, 0, Plain)];
  }
}
