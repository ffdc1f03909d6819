/** What every committed state satisfies, one predicate per concern. Each
    predicate names only the tables it reads, so a step that leaves those
    tables alone keeps it for free. */
module Invariant {
  import opened Sums
  import opened Ledger
  import opened Settlement
  import opened Committee

  // ── rows ────────────────────────────────────────────────────────────

  ghost predicate RowOk(row: Validator, delegations: map<Pair, nat>, v: Key, height: nat) {
    && row.totalDelegated == Sum(StakesOn(delegations, v))
    && row.externalDelegated == row.totalDelegated
    && (row.status.Unstaked? <==> row.selfStake == 0)
    && (row.status.Unstaked? ==> row.totalDelegated == 0)
    && row.commission <= COMMISSION_MAX && row.pendingCommission <= COMMISSION_MAX
    && row.activeSince <= height + 1
    && (height < EPOCH ==> !row.status.Unstaked?)
  }

  ghost predicate RowsOk(vals: map<Key, Validator>, delegations: map<Pair, nat>, height: nat) {
    && (forall v :: v in vals ==> RowOk(vals[v], delegations, v, height))
    && (forall p :: p in delegations ==> p.validator in vals && delegations[p] > 0)
  }

  ghost function CountedKeys(vals: map<Key, Validator>): set<Key> {
    set v | v in vals && Counted(vals[v].status)
  }

  ghost function AutoRetiredKeys(vals: map<Key, Validator>): set<Key> {
    set v | v in vals && vals[v].status.AutoRetired?
  }

  /** `active_count` counts the bonded and the retiring rows, and both scans
      of the next boundary fit their bounds. */
  ghost predicate CountOk(vals: map<Key, Validator>, activeCount: nat) {
    && activeCount == |CountedKeys(vals)| <= MAX_VALIDATORS
    && |AutoRetiredKeys(vals)| <= MAX_VALIDATORS
  }

  // ── coins ───────────────────────────────────────────────────────────

  /** Boundary-made coins name a boundary that has happened. */
  ghost predicate IdsOk(coins: map<CoinId, Coin>, last: nat) {
    forall c :: c in coins && (c.PaydayOut? || c.BondOut? || c.DelegationOut?) ==> c.boundary <= last
  }

  ghost predicate AccrualOk(accrual: map<Key, nat>) {
    forall k :: k in accrual ==> accrual[k] > 0
  }

  // ── frozen copies ───────────────────────────────────────────────────

  /** The three newest boundaries have a copy, and only they. */
  ghost predicate Retained(copies: map<nat, Copy>, last: nat) {
    forall b: nat :: b in copies <==> b % EPOCH == 0 && b <= last <= b + 2 * EPOCH
  }

  /** A bonded row that was already staked at b is in copy(b) with its bond.
      A genesis row is in copy(0); a row staked in block 1 is not. */
  ghost predicate CopyFits(c: Copy, b: nat, vals: map<Key, Validator>) {
    && c.bonds.Keys <= vals.Keys
    && (forall v :: v in c.bonds ==> c.bonds[v] > 0)
    && (forall p :: p in c.stakes ==> p.validator in c.bonds)
    && (forall v :: v in vals && !vals[v].status.Unstaked? && vals[v].activeSince <= b ==> v in c.bonds)
    && (forall v :: v in c.bonds && v in vals && !vals[v].status.Unstaked? ==>
          (vals[v].activeSince <= b || vals[v].activeSince <= 1 ==> c.bonds[v] == vals[v].selfStake))
  }

  ghost predicate CopiesOk(copies: map<nat, Copy>, vals: map<Key, Validator>, last: nat) {
    && Retained(copies, last)
    && (forall b :: b in copies ==> CopyFits(copies[b], b, vals))
  }

  // ── snapshots ───────────────────────────────────────────────────────

  /** A seat of the set for epoch `k`: its row is still bonded or leaving, and
      still holds exactly the bond the seat was given. */
  ghost predicate SeatLive(vals: map<Key, Validator>, k: nat, e: Entry) {
    && e.key in vals
    && !vals[e.key].status.Unstaked?
    && vals[e.key].selfStake == e.bond
    && (vals[e.key].activeSince + MIN_TENURE <= k || vals[e.key].activeSince <= 1)
    && e.commission <= COMMISSION_MAX
    && e.total > 0
  }

  ghost predicate SeatsLive(vals: map<Key, Validator>, k: nat, es: seq<Entry>) {
    es != [] && DistinctSeats(es) && forall i :: 0 <= i < |es| ==> SeatLive(vals, k, es[i])
  }

  ghost predicate NotRetired(vals: map<Key, Validator>, es: seq<Entry>) {
    forall i :: 0 <= i < |es| && es[i].key in vals ==> !vals[es[i].key].status.AutoRetired?
  }

  ghost predicate SeatsMatch(es: seq<Entry>, c: Copy) {
    forall i :: 0 <= i < |es| ==> SeatMatches(es[i], c)
  }

  function Back(b: nat, n: nat): nat { if b >= n then b - n else 0 }

  /** The set in effect since the last boundary, and the one already frozen
      for the next epoch. */
  ghost predicate SnapshotsOk(snaps: map<nat, seq<Entry>>, vals: map<Key, Validator>, last: nat) {
    && (forall k :: k in snaps ==> k <= last + EPOCH)
    && last in snaps && last + EPOCH in snaps
    && SeatsLive(vals, last, snaps[last])
    && SeatsLive(vals, last + EPOCH, snaps[last + EPOCH])
    && NotRetired(vals, snaps[last + EPOCH])
  }

  /** Each of the two sets agrees, seat by seat, with the copy the next
      distribution that pays it will read. */
  ghost predicate GatesOk(snaps: map<nat, seq<Entry>>, copies: map<nat, Copy>, last: nat) {
    && last in snaps && last + EPOCH in snaps
    && Back(last, 2 * EPOCH) in copies && Back(last, EPOCH) in copies
    && SeatsMatch(snaps[last], copies[Back(last, 2 * EPOCH)])
    && SeatsMatch(snaps[last + EPOCH], copies[Back(last, EPOCH)])
  }

  // ── locks ───────────────────────────────────────────────────────────

  ghost function LockedFrom(coins: map<CoinId, Coin>, o: Origin, t: nat): map<CoinId, nat> {
    map c | c in coins && coins[c].origin == o && coins[c].unlock >= t :: coins[c].amount
  }

  /** Every unit copy(b) counts for a position is either still staked there
      or sits in a coin released from it that is locked past b + 13E. */
  ghost predicate StakeCovered(c: Copy, b: nat, coins: map<CoinId, Coin>, delegations: map<Pair, nat>, p: Pair) {
    At(c.stakes, p) <= At(delegations, p) + Sum(LockedFrom(coins, FromStake(p), b + 13 * EPOCH))
  }

  ghost predicate BondCovered(c: Copy, b: nat, coins: map<CoinId, Coin>, vals: map<Key, Validator>, v: Key) {
    At(c.bonds, v) <= (if v in vals then vals[v].selfStake else 0)
                      + Sum(LockedFrom(coins, FromBond(v), b + 85 * EPOCH))
  }

  ghost predicate StakesCovered(copies: map<nat, Copy>, coins: map<CoinId, Coin>, delegations: map<Pair, nat>) {
    forall b, p :: b in copies ==> StakeCovered(copies[b], b, coins, delegations, p)
  }

  ghost predicate BondsCovered(copies: map<nat, Copy>, coins: map<CoinId, Coin>, vals: map<Key, Validator>) {
    forall b, v :: b in copies ==> BondCovered(copies[b], b, coins, vals, v)
  }

  /** The invariant of a chain whose last committed block is `s.height`. */
  ghost predicate Inv(s: State) {
    && ValidParams(s.params)
    && s.genesisSupply <= STORE_MAX
    && Conserved(s)
    && RowsOk(s.validators, s.delegations, s.height)
    && CountOk(s.validators, s.activeCount)
    && IdsOk(s.coins, EpochStart(s.height))
    && AccrualOk(s.accrual)
    && CopiesOk(s.copies, s.validators, EpochStart(s.height))
    && SnapshotsOk(s.snapshots, s.validators, EpochStart(s.height))
    && GatesOk(s.snapshots, s.copies, EpochStart(s.height))
    && StakesCovered(s.copies, s.coins, s.delegations)
    && BondsCovered(s.copies, s.coins, s.validators)
  }
}
