/** The committed state of a version-3 Nodus chain and the money it holds.

    Public keys and their fingerprints are one type `Key`: the hash between
    them is taken to be injective. A coin's 64-byte nullifier is a hash of a
    tagged preimage; the preimages are kept here as a datatype, so two coins
    collide exactly when the source would hash the same bytes. Only the
    native asset is modelled. */
module Ledger {
  import opened Sums

  datatype Key = Key(id: int)

  /** A boundary either completes or faults the block: it has no verdict. */
  datatype Result<T> = Ok(value: T) | Fault {
    predicate IsFailure() { Fault? }
    function PropagateFailure<U>(): Result<U>
      requires Fault?
    {
      Fault
    }
    function Extract(): T
      requires Ok?
    {
      value
    }
  }

  // dnac/include/dnac/dnac.h, nodus_witness.h, nodus_witness_v2_gen.h
  const EPOCH := 720
  const MIN_TENURE := 1440
  const UNBOND_EPOCHS := 84
  const UNDELEGATE_LOCK_EPOCHS := 12
  const MAX_VALIDATORS := 128
  const MAX_DELEGATORS := 2048
  const AUTO_RETIRE_EPOCHS := 2
  const LIVENESS_THRESHOLD_BPS := 5000
  const ATTENDANCE_WINDOW := 120
  const COMMISSION_MAX := 5000
  const MIN_FEE := 1_000_000
  const MIN_DELEGATION := 10_000_000_000
  const DECIMAL_UNIT := 100_000_000
  const TOTAL_SUPPLY := 100_000_000_000_000_000
  const STORE_MAX := 0x7fff_ffff_ffff_ffff
  const REWARD_DIVISOR := 65536
  const MAX_INPUTS := 15
  const MAX_OUTPUTS := 16

  datatype Status = Active | Retiring | Unstaked | AutoRetired | Eligible

  predicate Bonded(s: Status) { s.Active? || s.Eligible? }

  /** The rows `validator_stats.active_count` counts. */
  predicate Counted(s: Status) { Bonded(s) || s.Retiring? }

  datatype Validator = Validator(
    status: Status,
    selfStake: nat,
    totalDelegated: nat,
    externalDelegated: nat,
    commission: nat,
    pendingCommission: nat,
    pendingEffective: nat,
    activeSince: nat,
    destination: Key,
    missed: nat)

  /** One delegation position: who is staked on whom. */
  datatype Pair = Pair(validator: Key, delegator: Key)

  /** The hash preimage a coin is named by. */
  datatype CoinId =
    | WireOut(owner: Key, seed: nat)
    | UndelegateOut(intent: nat)
    | PaydayOut(boundary: nat, payee: Key)
    | BondOut(boundary: nat, validator: Key)
    | DelegationOut(boundary: nat, pair: Pair)
    | ClaimOut(claim: nat)

  /** The stake row a coin's principal left, if it left one. */
  datatype Origin = Plain | FromBond(validator: Key) | FromStake(pair: Pair)

  datatype Coin = Coin(owner: Key, amount: nat, unlock: nat, origin: Origin)

  /** One `v2_balance_copy`: the bond rows (kind 0) and the delegation rows
      (kind 1) as they stood when a boundary ended. */
  datatype Copy = Copy(bonds: map<Key, nat>, stakes: map<Pair, nat>)

  /** One seat of a committee snapshot. */
  datatype Entry = Entry(key: Key, total: nat, bond: nat, commission: nat)

  datatype Attendance = Attendance(signed: nat, last: nat)

  datatype Allocation = Allocation(owner: Key, amount: nat)

  type Positive = n: nat | n > 0 witness 1

  /** What the chain committed at genesis. `bondMin`/`bondMax` is the STAKE
      bond rule: equal for an exact self-stake, `bondMin` a floor otherwise. */
  datatype Params = Params(bondMin: nat, bondMax: nat, payoutInterval: Positive, seats: nat)

  ghost predicate ValidParams(p: Params) {
    0 < p.bondMin <= p.bondMax <= STORE_MAX && 1 <= p.seats <= 32
  }

  datatype State = State(
    params: Params,
    height: nat,
    genesisSupply: nat,
    burned: nat,
    pool: nat,
    coins: map<CoinId, Coin>,
    validators: map<Key, Validator>,
    delegations: map<Pair, nat>,
    accrual: map<Key, nat>,
    allocations: map<nat, Allocation>,
    reserves: nat,
    activeCount: nat,
    copies: map<nat, Copy>,
    snapshots: map<nat, seq<Entry>>,
    attendance: map<Key, Attendance>)

  // ── the supply buckets ──────────────────────────────────────────────

  ghost function Amounts(coins: map<CoinId, Coin>): map<CoinId, nat> {
    map c | c in coins :: coins[c].amount
  }

  lemma AddCoin(coins: map<CoinId, Coin>, id: CoinId, c: Coin)
    requires id !in coins
    ensures Sum(Amounts(coins[id := c])) == Sum(Amounts(coins)) + c.amount
  {
    SumRemove(Amounts(coins[id := c]), id);
    assert Amounts(coins[id := c]) - {id} == Amounts(coins);
  }

  ghost function Bonds(vals: map<Key, Validator>): map<Key, nat> {
    map v | v in vals :: vals[v].selfStake
  }

  ghost function Delegated(vals: map<Key, Validator>): map<Key, nat> {
    map v | v in vals :: vals[v].totalDelegated
  }

  ghost function Unclaimed(allocs: map<nat, Allocation>): map<nat, nat> {
    map a | a in allocs :: allocs[a].amount
  }

  /** Every place a native unit can be. */
  ghost function Holdings(s: State): nat {
    Sum(Amounts(s.coins)) + Sum(Bonds(s.validators)) + Sum(Delegated(s.validators))
    + s.pool + Sum(s.accrual) + Sum(Unclaimed(s.allocations)) + s.reserves
  }

  /** The supply equation of the witness's supply gate. */
  ghost predicate Conserved(s: State) {
    s.genesisSupply == Holdings(s) + s.burned
  }

  // ── delegation rows ─────────────────────────────────────────────────

  function Delegators(stakes: map<Pair, nat>, v: Key): (r: set<Key>)
    ensures forall d :: d in r <==> Pair(v, d) in stakes
  {
    set p | p in stakes && p.validator == v :: p.delegator
  }

  /** The delegation rows of one validator, keyed by delegator. */
  function StakesOn(stakes: map<Pair, nat>, v: Key): (r: map<Key, nat>)
    ensures forall d :: d in r <==> Pair(v, d) in stakes
    ensures forall d :: d in r ==> r[d] == stakes[Pair(v, d)]
  {
    map d | d in Delegators(stakes, v) :: stakes[Pair(v, d)]
  }

  lemma StakesOnSet(stakes: map<Pair, nat>, p: Pair, x: nat)
    ensures StakesOn(stakes[p := x], p.validator) == StakesOn(stakes, p.validator)[p.delegator := x]
  {
    var l, r := StakesOn(stakes[p := x], p.validator), StakesOn(stakes, p.validator)[p.delegator := x];
    assert l.Keys == r.Keys;
    forall d | d in l.Keys ensures l[d] == r[d] {}
  }

  lemma StakesOnDrop(stakes: map<Pair, nat>, p: Pair)
    ensures StakesOn(stakes - {p}, p.validator) == StakesOn(stakes, p.validator) - {p.delegator}
  {
    var l, r := StakesOn(stakes - {p}, p.validator), StakesOn(stakes, p.validator) - {p.delegator};
    assert forall d :: d in l.Keys <==> d in r.Keys;
    forall d | d in l.Keys ensures l[d] == r[d] {}
  }

  /** Rows of other validators do not matter. */
  lemma StakesOnSame(a: map<Pair, nat>, b: map<Pair, nat>, v: Key)
    requires forall d :: Pair(v, d) in a <==> Pair(v, d) in b
    requires forall d :: Pair(v, d) in a ==> a[Pair(v, d)] == b[Pair(v, d)]
    ensures StakesOn(a, v) == StakesOn(b, v)
  {
    var l, r := StakesOn(a, v), StakesOn(b, v);
    assert forall d :: d in l.Keys <==> d in r.Keys;
    forall d | d in l.Keys ensures l[d] == r[d] {}
  }

  // ── heights ─────────────────────────────────────────────────────────

  function EpochStart(h: nat): nat { h / EPOCH * EPOCH }

  predicate IsBoundary(h: nat) { h > 0 && h % EPOCH == 0 }

  /** L(h): the first boundary whose validator set no longer counts a stake
      that left in block h. */
  function PowerExit(h: nat): (l: nat)
    ensures l % EPOCH == 0
    ensures h + 2 * EPOCH <= l < h + 3 * EPOCH
  {
    (if h % EPOCH == 0 then h else (h / EPOCH + 1) * EPOCH) + 2 * EPOCH
  }

  /** The copy the set governing the epoch that ends at h was built from. */
  function SourceCopy(h: nat): nat {
    if h >= 3 * EPOCH then h - 3 * EPOCH else 0
  }
}
