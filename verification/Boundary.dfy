/** The epoch boundary, step by step, in the order the block engine runs it:
    commissions, distribution, payday, graduation, Rule N, attendance reset,
    seat flips, the next snapshot, the frozen balance copy. */
module Boundary {
  import opened Sums
  import opened Ledger
  import opened Settlement
  import opened Ranking
  import opened Committee

  ghost function SeatKeys(es: seq<Entry>): (r: set<Key>)
    ensures forall i :: 0 <= i < |es| ==> es[i].key in r
    ensures forall k :: k in r ==> exists i :: 0 <= i < |es| && es[i].key == k
  {
    set i | 0 <= i < |es| :: es[i].key
  }

  // ── 1. pending commissions ──────────────────────────────────────────

  ghost function ActivateCommission(v: Validator, h: nat): Validator {
    if v.pendingEffective != 0 && v.pendingEffective <= h && v.pendingCommission != 0
    then v.(commission := v.pendingCommission, pendingCommission := 0, pendingEffective := 0)
    else v
  }

  ghost function ActivateCommissions(s: State, h: nat): State {
    s.(validators := map v | v in s.validators :: ActivateCommission(s.validators[v], h))
  }

  // ── 2. graduation ───────────────────────────────────────────────────

  predicate Leaving(st: Status) { st.Retiring? || st.AutoRetired? }

  /** Every row the graduation scan reads. */
  ghost function Exiting(vals: map<Key, Validator>): set<Key> {
    set v | v in vals && Leaving(vals[v].status)
  }

  /** Exiting rows that are no longer a seat of the set taking effect at h. */
  ghost function Graduates(s: State, h: nat): set<Key>
    requires h in s.snapshots
  {
    set v | v in s.validators && Leaving(s.validators[v].status) && v !in SeatKeys(s.snapshots[h])
  }

  /** Each remaining delegation back to its delegator, locked twelve epochs. */
  ghost function ReleaseCoins(h: nat, v: Key, rows: map<Key, nat>): (r: map<CoinId, Coin>)
    ensures forall c :: c in r <==>
              c.DelegationOut? && c.boundary == h && c.pair.validator == v && c.pair.delegator in rows
    ensures forall c :: c in r ==>
              r[c] == Coin(c.pair.delegator, rows[c.pair.delegator],
                           h + UNDELEGATE_LOCK_EPOCHS * EPOCH, FromStake(c.pair))
  {
    map c | c in (set d | d in rows :: DelegationOut(h, Pair(v, d)))
      :: Coin(c.pair.delegator, rows[c.pair.delegator],
              h + UNDELEGATE_LOCK_EPOCHS * EPOCH, FromStake(c.pair))
  }

  /** The bond to its destination, locked eighty-four epochs. */
  function BondCoin(h: nat, v: Key, row: Validator): Coin {
    Coin(row.destination, row.selfStake, h + UNBOND_EPOCHS * EPOCH, FromBond(v))
  }

  function Graduated(row: Validator): Validator {
    row.(status := Unstaked, selfStake := 0, totalDelegated := 0, externalDelegated := 0)
  }

  /** The delegation rows of the other validators. */
  function Without(stakes: map<Pair, nat>, v: Key): map<Pair, nat> {
    map p | p in stakes && p.validator != v :: stakes[p]
  }

  ghost function StakeSum(stakes: map<Pair, nat>, v: Key): nat { Sum(StakesOn(stakes, v)) }

  /** No delegation of v was released at h before. */
  ghost predicate StakesFree(coins: map<CoinId, Coin>, h: nat, v: Key, stakes: map<Pair, nat>) {
    forall d :: d in StakesOn(stakes, v) ==> DelegationOut(h, Pair(v, d)) !in coins
  }

  /** The coins after the remaining delegations of v were released. */
  ghost function Freed(coins: map<CoinId, Coin>, h: nat, v: Key, stakes: map<Pair, nat>): map<CoinId, Coin> {
    coins + ReleaseCoins(h, v, StakesOn(stakes, v))
  }

  /** The coins of a whole graduation. */
  ghost function Released(coins: map<CoinId, Coin>, h: nat, v: Key, row: Validator, stakes: map<Pair, nat>): map<CoinId, Coin> {
    Freed(coins[BondOut(h, v) := BondCoin(h, v, row)], h, v, stakes)
  }

  ghost function GraduateOne(s: State, h: nat, v: Key): Result<State>
    requires v in s.validators
  {
    var row := s.validators[v];
    if BondOut(h, v) in s.coins || !StakesFree(s.coins, h, v, s.delegations)
       || StakeSum(s.delegations, v) != row.totalDelegated || StakeSum(s.delegations, v) != row.externalDelegated
       || (row.status.Retiring? && s.activeCount == 0) then Fault
    else
      Ok(s.(coins := Released(s.coins, h, v, row, s.delegations),
            validators := s.validators[v := Graduated(row)],
            delegations := Without(s.delegations, v),
            activeCount := if row.status.Retiring? then s.activeCount - 1 else s.activeCount))
  }

  /** Key ascending, as the scan runs. */
  ghost function Least(ks: set<Key>): (k: Key)
    requires ks != {}
    ensures k in ks
  {
    Top(_ => 0, (x: Key) => x.id, ks)
  }

  ghost function GraduateAll(s: State, h: nat, ks: set<Key>): Result<State>
    decreases ks
  {
    if ks == {} then Ok(s)
    else
      var v := Least(ks);
      if v !in s.validators then Fault
      else
        var s' :- GraduateOne(s, h, v);
        GraduateAll(s', h, ks - {v})
  }

  ghost function Graduate(s: State, h: nat): Result<State> {
    if h !in s.snapshots || s.snapshots[h] == [] then Fault
    else if |Exiting(s.validators)| > 2 * MAX_VALIDATORS then Fault
    else GraduateAll(s, h, Graduates(s, h))
  }

  // ── 3. Rule N ───────────────────────────────────────────────────────

  ghost predicate OnDuty(s: State, h: nat, v: Key)
    requires h >= EPOCH
  {
    h - EPOCH in s.snapshots && v in SeatKeys(s.snapshots[h - EPOCH])
    && v in s.validators && s.validators[v].status.Active?
  }

  /** v had a duty in the epoch that ends at h and missed the bar. */
  ghost predicate Charged(s: State, h: nat, v: Key)
    requires h >= EPOCH
  {
    OnDuty(s, h, v) && !MeetsBar(s.attendance, v, h)
  }

  ghost function Recounted(s: State, h: nat, v: Key): Validator
    requires h >= EPOCH && v in s.validators
  {
    var row := s.validators[v];
    if !Bonded(row.status) then row
    else row.(missed := if Charged(s, h, v) then row.missed + 1 else 0)
  }

  ghost function Recount(s: State, h: nat): State
    requires h >= EPOCH
  {
    s.(validators := map v | v in s.validators :: Recounted(s, h, v))
  }

  ghost function Due(vals: map<Key, Validator>): set<Key> {
    set v | v in vals && vals[v].status.Active? && vals[v].missed >= AUTO_RETIRE_EPOCHS
  }

  ghost function Retire(s: State): State {
    s.(validators := map v | v in s.validators ::
         if v in Due(s.validators) then s.validators[v].(status := AutoRetired) else s.validators[v])
  }

  ghost function BondedKeys(vals: map<Key, Validator>): set<Key> {
    set v | v in vals && Bonded(vals[v].status)
  }

  ghost predicate Allowed(next: seq<Entry>) { next != [] && ClearsFloor(Powers(next)) }

  /** All due rows retire together, or none does and the counters stay. */
  ghost function RetireDue(s: State, h: nat, tb: Tiebreak): Result<State>
    requires h >= EPOCH
  {
    var due := Due(s.validators);
    if due == {} then Ok(s)
    else if !Allowed(CommitteeFor(Retire(s), h + EPOCH, tb)) then Ok(s)
    else if s.activeCount < |due| then Fault
    else Ok(Retire(s).(activeCount := s.activeCount - |due|))
  }

  ghost function RuleN(s: State, h: nat, tb: Tiebreak): Result<State>
    requires h >= EPOCH
  {
    if h - EPOCH !in s.snapshots || s.snapshots[h - EPOCH] == [] then Fault
    else if |BondedKeys(s.validators)| > MAX_VALIDATORS then Fault
    else RetireDue(Recount(s, h), h, tb)
  }

  // ── 3c, 4, 5, 6 ─────────────────────────────────────────────────────

  ghost function ResetAttendance(s: State): State {
    s.(attendance := map v | v in s.attendance :: s.attendance[v].(signed := 0))
  }

  ghost function Flipped(st: Status, seated: bool): Status {
    if !Bonded(st) then st else if seated then Active else Eligible
  }

  /** The snapshot frozen one epoch ago takes effect. */
  ghost function Flip(s: State, h: nat): State {
    if h !in s.snapshots then s
    else
      var seats := SeatKeys(s.snapshots[h]);
      s.(validators := map v | v in s.validators ::
           s.validators[v].(status := Flipped(s.validators[v].status, v in seats)))
  }

  /** An empty committee, or a second set for one epoch, faults the block. */
  ghost function CommitNext(s: State, h: nat, tb: Tiebreak): Result<State>
    requires h >= EPOCH
  {
    var next := CommitteeFor(s, h + EPOCH, tb);
    if next == [] || (h + EPOCH in s.snapshots && s.snapshots[h + EPOCH] != next) then Fault
    else Ok(s.(snapshots := s.snapshots[h + EPOCH := next]))
  }

  ghost function LiveCopy(s: State): Copy {
    Copy(map v | v in s.validators && s.validators[v].selfStake != 0 :: s.validators[v].selfStake,
         s.delegations)
  }

  /** Strict insert of copy(h); the three newest copies are kept. */
  ghost function WriteCopy(s: State, h: nat): Result<State> {
    if h in s.copies then Fault
    else
      var all := s.copies[h := LiveCopy(s)];
      Ok(s.(copies := map b | b in all && b + 2 * EPOCH >= h :: all[b]))
  }

  /** Steps 3c to 6: what the boundary does after Rule N. */
  ghost function Close(s: State, h: nat, tb: Tiebreak): Result<State>
    requires h >= EPOCH
  {
    var s4 := Flip(ResetAttendance(s), h);
    var s5 :- CommitNext(s4, h, tb);
    WriteCopy(s5, h)
  }

  /** Steps 1 to 2: what the boundary does before Rule N. */
  ghost function Open(s: State, h: nat): Result<State>
    requires IsBoundary(h)
  {
    var s1 :- Settle(ActivateCommissions(s, h), h);
    var s2 :- Payday(s1, h);
    Graduate(s2, h)
  }

  ghost function RunBoundary(s: State, h: nat, tb: Tiebreak): Result<State>
    requires IsBoundary(h)
  {
    var s2 :- Open(s, h);
    var s3 :- RuleN(s2, h, tb);
    Close(s3, h, tb)
  }
}
