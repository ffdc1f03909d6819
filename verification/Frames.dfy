/** Which steps leave which parts of the invariant alone. */
module Frames {
  import opened Sums
  import opened Ledger
  import opened Invariant

  // ── coins ───────────────────────────────────────────────────────────

  /** Coins that survive keep every lock total at or above height h. */
  lemma LockedKept(a: map<CoinId, Coin>, b: map<CoinId, Coin>, h: nat, o: Origin, t: nat)
    requires t >= h
    requires KeepsLocked(a, b, h)
    ensures Sum(LockedFrom(a, o, t)) <= Sum(LockedFrom(b, o, t))
  {
    SumMono(LockedFrom(a, o, t), LockedFrom(b, o, t));
  }

  ghost predicate KeepsLocked(a: map<CoinId, Coin>, b: map<CoinId, Coin>, h: nat) {
    forall c :: c in a && a[c].unlock >= h ==> c in b && b[c] == a[c]
  }

  lemma StakesCoverKept(copies: map<nat, Copy>, last: nat, a: map<CoinId, Coin>, b: map<CoinId, Coin>,
                        h: nat, delegations: map<Pair, nat>)
    requires Retained(copies, last) && h <= last + EPOCH && KeepsLocked(a, b, h)
    requires StakesCovered(copies, a, delegations)
    ensures StakesCovered(copies, b, delegations)
  {
    forall c, p | c in copies ensures StakeCovered(copies[c], c, b, delegations, p) {
      assert StakeCovered(copies[c], c, a, delegations, p);
      LockedKept(a, b, h, FromStake(p), c + 13 * EPOCH);
    }
  }

  lemma BondsCoverKept(copies: map<nat, Copy>, last: nat, a: map<CoinId, Coin>, b: map<CoinId, Coin>,
                       h: nat, vals: map<Key, Validator>)
    requires Retained(copies, last) && h <= last + EPOCH && KeepsLocked(a, b, h)
    requires BondsCovered(copies, a, vals)
    ensures BondsCovered(copies, b, vals)
  {
    forall c, v | c in copies ensures BondCovered(copies[c], c, b, vals, v) {
      assert BondCovered(copies[c], c, a, vals, v);
      LockedKept(a, b, h, FromBond(v), c + 85 * EPOCH);
    }
  }

  // ── validator rows ───────────────────────────────────────────────

  lemma SetRowSums(vals: map<Key, Validator>, v: Key, row: Validator)
    ensures v in vals ==>
      && Sum(Bonds(vals[v := row])) == Sum(Bonds(vals)) - vals[v].selfStake + row.selfStake
      && Sum(Delegated(vals[v := row])) == Sum(Delegated(vals)) - vals[v].totalDelegated + row.totalDelegated
      && vals[v].selfStake <= Sum(Bonds(vals)) && vals[v].totalDelegated <= Sum(Delegated(vals))
    ensures v !in vals ==>
      && Sum(Bonds(vals[v := row])) == Sum(Bonds(vals)) + row.selfStake
      && Sum(Delegated(vals[v := row])) == Sum(Delegated(vals)) + row.totalDelegated
  {
    assert Bonds(vals[v := row]) == Bonds(vals)[v := row.selfStake];
    assert Delegated(vals[v := row]) == Delegated(vals)[v := row.totalDelegated];
    SumSet(Bonds(vals), v, row.selfStake);
    SumSet(Delegated(vals), v, row.totalDelegated);
  }

  ghost predicate Tweak(a: Validator, b: Validator) {
    && b.selfStake == a.selfStake && b.activeSince == a.activeSince
    && b.status.Unstaked? == a.status.Unstaked?
  }

  /** The same rows: same bonds and tenures, unstaked alike. */
  ghost predicate Kin(a: map<Key, Validator>, b: map<Key, Validator>) {
    a.Keys == b.Keys && forall v :: v in a ==> Tweak(a[v], b[v])
  }

  ghost predicate Steady(a: Validator, b: Validator) {
    Counted(b.status) == Counted(a.status) && b.status.AutoRetired? == a.status.AutoRetired?
  }

  /** The same rows are counted, and the same are auto-retired. */
  ghost predicate SameStanding(a: map<Key, Validator>, b: map<Key, Validator>) {
    a.Keys == b.Keys && forall v :: v in a ==> Steady(a[v], b[v])
  }

  lemma StandingCount(a: map<Key, Validator>, b: map<Key, Validator>, n: nat)
    requires CountOk(a, n) && SameStanding(a, b)
    ensures CountOk(b, n)
  {
    assert CountedKeys(b) == CountedKeys(a);
    assert AutoRetiredKeys(b) == AutoRetiredKeys(a);
  }

  lemma StandingSeats(a: map<Key, Validator>, b: map<Key, Validator>, es: seq<Entry>)
    requires NotRetired(a, es) && SameStanding(a, b)
    ensures NotRetired(b, es)
  {
    forall i | 0 <= i < |es| && es[i].key in b ensures !b[es[i].key].status.AutoRetired? {
      assert Steady(a[es[i].key], b[es[i].key]);
    }
  }

  lemma KinCopies(copies: map<nat, Copy>, last: nat, a: map<Key, Validator>, b: map<Key, Validator>)
    requires CopiesOk(copies, a, last) && Kin(a, b)
    ensures CopiesOk(copies, b, last)
  {
    forall k | k in copies ensures CopyFits(copies[k], k, b) {
      assert CopyFits(copies[k], k, a);
    }
  }

  lemma KinBonds(copies: map<nat, Copy>, coins: map<CoinId, Coin>, a: map<Key, Validator>, b: map<Key, Validator>)
    requires BondsCovered(copies, coins, a) && Kin(a, b)
    ensures BondsCovered(copies, coins, b)
  {
    forall k, w | k in copies ensures BondCovered(copies[k], k, coins, b, w) {
      assert BondCovered(copies[k], k, coins, a, w);
      if w in a { assert Tweak(a[w], b[w]); }
    }
  }

  lemma KinSeats(a: map<Key, Validator>, b: map<Key, Validator>, k: nat, es: seq<Entry>)
    requires SeatsLive(a, k, es) && Kin(a, b)
    ensures SeatsLive(b, k, es)
  {
    forall i | 0 <= i < |es| ensures SeatLive(b, k, es[i]) && Tweak(a[es[i].key], b[es[i].key]) {
      assert SeatLive(a, k, es[i]);
    }
  }

  lemma KinSnapshots(snaps: map<nat, seq<Entry>>, last: nat, a: map<Key, Validator>, b: map<Key, Validator>)
    requires SnapshotsOk(snaps, a, last) && Kin(a, b) && SameStanding(a, b)
    ensures SnapshotsOk(snaps, b, last)
  {
    StandingSeats(a, b, snaps[last + EPOCH]);
    KinSeats(a, b, last, snaps[last]);
    KinSeats(a, b, last + EPOCH, snaps[last + EPOCH]);
  }

  lemma KinSet(a: map<Key, Validator>, v: Key, row: Validator)
    requires v in a && Tweak(a[v], row) && Steady(a[v], row)
    ensures Kin(a, a[v := row]) && SameStanding(a, a[v := row])
  {
  }

  // ── delegation rows ─────────────────────────────────────────────────

  ghost predicate SameElsewhere(a: map<Pair, nat>, b: map<Pair, nat>, v: Key) {
    forall p: Pair :: p.validator != v ==> (p in a <==> p in b) && (p in a ==> b[p] == a[p])
  }

  lemma RowElsewhere(row: Validator, a: map<Pair, nat>, b: map<Pair, nat>, v: Key, w: Key, height: nat)
    requires RowOk(row, a, w, height) && SameElsewhere(a, b, v) && w != v
    ensures RowOk(row, b, w, height)
  {
    StakesOnSame(a, b, w);
  }

  lemma RowsSet(vals: map<Key, Validator>, a: map<Pair, nat>, b: map<Pair, nat>, height: nat, v: Key, row: Validator)
    requires RowsOk(vals, a, height) && SameElsewhere(a, b, v)
    requires RowOk(row, b, v, height)
    requires forall p :: p in b ==> b[p] > 0
    ensures RowsOk(vals[v := row], b, height)
  {
    var vals' := vals[v := row];
    forall w | w in vals' ensures RowOk(vals'[w], b, w, height) {
      if w != v { RowElsewhere(vals[w], a, b, v, w, height); }
    }
    forall p | p in b ensures p.validator in vals' {
      if p.validator != v { assert p in a; }
    }
  }

  lemma RowsTweak(vals: map<Key, Validator>, a: map<Pair, nat>, height: nat, v: Key, row: Validator)
    requires RowsOk(vals, a, height) && RowOk(row, a, v, height)
    ensures RowsOk(vals[v := row], a, height)
  {
    RowsSet(vals, a, a, height, v, row);
  }

  lemma LockAdded(coins: map<CoinId, Coin>, id: CoinId, c: Coin, o: Origin, t: nat)
    requires id !in coins
    ensures Sum(LockedFrom(coins[id := c], o, t))
         == Sum(LockedFrom(coins, o, t)) + (if c.origin == o && c.unlock >= t then c.amount else 0)
  {
    var l := LockedFrom(coins[id := c], o, t);
    if c.origin == o && c.unlock >= t {
      SumRemove(l, id);
      assert l - {id} == LockedFrom(coins, o, t);
    } else {
      assert l == LockedFrom(coins, o, t);
    }
  }

  /** Stake that leaves a position stays covered by the coin it leaves in. */
  lemma StakesReleased(copies: map<nat, Copy>, coins: map<CoinId, Coin>, a: map<Pair, nat>, b: map<Pair, nat>,
                       id: CoinId, c: Coin, p0: Pair)
    requires StakesCovered(copies, coins, a) && id !in coins && c.origin == FromStake(p0)
    requires forall p :: At(a, p) <= At(b, p) + (if p == p0 then c.amount else 0)
    requires forall k :: k in copies ==> c.unlock >= k + 13 * EPOCH
    ensures StakesCovered(copies, coins[id := c], b)
  {
    var coins' := coins[id := c];
    forall k, p | k in copies ensures StakeCovered(copies[k], k, coins', b, p) {
      assert StakeCovered(copies[k], k, coins, a, p);
      LockAdded(coins, id, c, FromStake(p), k + 13 * EPOCH);
    }
  }

  lemma StakesGrown(copies: map<nat, Copy>, coins: map<CoinId, Coin>, a: map<Pair, nat>, b: map<Pair, nat>)
    requires StakesCovered(copies, coins, a)
    requires forall p :: At(a, p) <= At(b, p)
    ensures StakesCovered(copies, coins, b)
  {
    forall k, p | k in copies ensures StakeCovered(copies[k], k, coins, b, p) {
      assert StakeCovered(copies[k], k, coins, a, p);
    }
  }
}
