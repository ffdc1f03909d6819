/** Blocks and runs: what genesis establishes, every block keeps. */
module Runs {
  import opened Sums
  import opened Ledger
  import opened Transactions
  import opened Settlement
  import opened Committee
  import opened Boundary
  import opened Invariant
  import opened ItemProofs
  import opened BoundaryProofs

  /** One entry of the commit a block carries for the block before it. */
  datatype Vote = Vote(voter: Key, commit: bool)

  /** A decided block: its items, the votes for its predecessor, and the
      tie-break its seed block gives the committee it may have to seat. */
  datatype Block = Block(items: seq<Tx>, votes: seq<Vote>, tb: Tiebreak)

  ghost function ApplyItems(s: State, h: nat, items: seq<Tx>): State
    decreases |items|
  {
    if items == [] then s else ApplyItems(ApplyItem(s, h, items[0]), h, items[1..])
  }

  /** Each COMMIT vote credits its voter with block h - 1. */
  function Credit(att: map<Key, Attendance>, h: nat, votes: seq<Vote>): map<Key, Attendance>
    requires h > 0
  {
    if votes == [] then att
    else
      var v := votes[|votes| - 1];
      var before := Credit(att, h, votes[..|votes| - 1]);
      if !v.commit then before
      else before[v.voter := Attendance((if v.voter in before then before[v.voter].signed else 0) + 1, h - 1)]
  }

  lemma {:induction false} ItemsKeep(s: State, items: seq<Tx>)
    requires Inv(s)
    ensures Inv(ApplyItems(s, s.height + 1, items))
    ensures ApplyItems(s, s.height + 1, items).height == s.height
    decreases |items|
  {
    hide Inv, ApplyItem;
    if items != [] {
      ItemKeeps(s, items[0]);
      ItemsKeep(ApplyItem(s, s.height + 1, items[0]), items[1..]);
    }
  }

  /** The state a block's boundary, if it has one, starts from. */
  ghost function BeforeBoundary(s: State, b: Block): State {
    var t := ApplyItems(s, s.height + 1, b.items);
    t.(attendance := Credit(t.attendance, s.height + 1, b.votes))
  }

  /** One block: items, attendance, then the boundary when the height is one. */
  ghost function ApplyBlock(s: State, b: Block): Result<State> {
    var h, t := s.height + 1, BeforeBoundary(s, b);
    if !IsBoundary(h) then Ok(t.(height := h))
    else
      var u :- RunBoundary(t, h, b.tb);
      Ok(u.(height := h))
  }

  ghost function Run(s: State, blocks: seq<Block>): Result<State>
    decreases |blocks|
  {
    if blocks == [] then Ok(s)
    else
      var t :- Run(s, blocks[..|blocks| - 1]);
      ApplyBlock(t, blocks[|blocks| - 1])
  }

  lemma InvAttendance(s: State, att: map<Key, Attendance>)
    requires Inv(s)
    ensures Inv(s.(attendance := att))
  {
    hide RowsOk, CountOk, IdsOk, AccrualOk, CopiesOk, SnapshotsOk, GatesOk, StakesCovered, BondsCovered;
    hide Sum, Amounts, Bonds, Delegated, Unclaimed, EpochStart;
  }

  /** A block off the epoch grid only moves the height. */
  lemma InvHeight(s: State)
    requires Inv(s) && !IsBoundary(s.height + 1)
    ensures Inv(s.(height := s.height + 1))
  {
    hide RowsOk, CountOk, IdsOk, AccrualOk, CopiesOk, SnapshotsOk, GatesOk, StakesCovered, BondsCovered;
    hide Sum, Amounts, Bonds, Delegated, Unclaimed;
    RowsAge(s.validators, s.delegations, s.height);
  }

  lemma BeforeKeeps(s: State, b: Block)
    requires Inv(s)
    ensures Inv(BeforeBoundary(s, b)) && BeforeBoundary(s, b).height == s.height
  {
    hide Inv, ApplyItems;
    ItemsKeep(s, b.items);
    var t := ApplyItems(s, s.height + 1, b.items);
    InvAttendance(t, Credit(t.attendance, s.height + 1, b.votes));
  }

  lemma BlockKeeps(s: State, b: Block)
    requires Inv(s) && ApplyBlock(s, b).Ok?
    ensures Inv(ApplyBlock(s, b).value) && ApplyBlock(s, b).value.height == s.height + 1
  {
    hide Inv, BeforeBoundary, RunBoundary, Candidates;
    BeforeKeeps(s, b);
    var t := BeforeBoundary(s, b);
    if IsBoundary(s.height + 1) {
      BoundaryKeeps(t, s.height + 1, b.tb);
    } else {
      InvHeight(t);
    }
  }

  /** Every state a run reaches satisfies the invariant. */
  lemma {:induction false} RunKeeps(s: State, blocks: seq<Block>)
    requires Inv(s) && Run(s, blocks).Ok?
    ensures Inv(Run(s, blocks).value) && Run(s, blocks).value.height == s.height + |blocks|
    decreases |blocks|
  {
    hide Inv, ApplyBlock;
    if blocks != [] {
      RunKeeps(s, blocks[..|blocks| - 1]);
      BlockKeeps(Run(s, blocks[..|blocks| - 1]).value, blocks[|blocks| - 1]);
    }
  }

  // ── genesis ─────────────────────────────────────────────────────────

  /** The rows a genesis seeds: bonded, without delegations, active from
      block 1. */
  ghost predicate GenesisRow(v: Validator) {
    v.status.Active? && v.selfStake > 0 && v.totalDelegated == 0 && v.externalDelegated == 0
    && v.commission <= COMMISSION_MAX && v.pendingCommission == 0 && v.activeSince == 1 && v.missed == 0
  }

  ghost predicate GenesisRows(vals: map<Key, Validator>) {
    0 < |vals| <= MAX_VALIDATORS && forall v :: v in vals ==> GenesisRow(vals[v])
  }

  ghost function Seed(p: Params, vals: map<Key, Validator>, pool: nat, allocs: map<nat, Allocation>): State {
    State(p, 0, Sum(Bonds(vals)) + Sum(Delegated(vals)) + pool + Sum(Unclaimed(allocs)), 0, pool,
          map[], vals, map[], map[], allocs, 0, |vals|, map[], map[], map[])
  }

  /** The committed genesis: copy(0) and the sets of epochs 0 and E, all built
      from the genesis rows. */
  ghost function Genesis(p: Params, vals: map<Key, Validator>, pool: nat, allocs: map<nat, Allocation>, tb: Tiebreak): State {
    var s := Seed(p, vals, pool, allocs);
    var c := LiveCopy(s);
    s.(copies := map[0 := c],
       snapshots := map[0 := CommitteeFrom(s, 0, c, tb), EPOCH := CommitteeFrom(s, EPOCH, c, tb)])
  }

  lemma GenesisRowsOk(vals: map<Key, Validator>)
    requires GenesisRows(vals)
    ensures RowsOk(vals, map[], 0) && CountOk(vals, |vals|)
  {
    assert CountedKeys(vals) == vals.Keys;
    assert AutoRetiredKeys(vals) == {};
    forall v | v in vals ensures RowOk(vals[v], map[], v, 0) {
      assert GenesisRow(vals[v]);
      assert StakesOn(map[], v) == map[];
    }
  }

  lemma GenesisSeats(s: State, k: nat, c: Copy, tb: Tiebreak, v: Key)
    requires GenesisRows(s.validators) && c == LiveCopy(s) && s.delegations == map[] && v in s.validators
    requires s.params.seats > 0
    ensures var es := CommitteeFrom(s, k, c, tb);
            SeatsLive(s.validators, k, es) && NotRetired(s.validators, es) && SeatsMatch(es, c)
  {
    hide CommitteeFrom, SeatLive, SeatMatches, GenesisRows, LiveCopy, SeatedFrom, Seatable;
    GenesisSeat(s, k, c, v);
    CommitteeNonempty(s, k, c, tb, v);
    CommitteeSeats(s, k, c, tb);
    var es := CommitteeFrom(s, k, c, tb);
    forall i | 0 <= i < |es|
      ensures SeatLive(s.validators, k, es[i]) && SeatMatches(es[i], c)
      ensures es[i].key in s.validators ==> !s.validators[es[i].key].status.AutoRetired?
    {
      GenesisEntry(s, k, c, es[i]);
    }
  }

  lemma GenesisEntry(s: State, k: nat, c: Copy, e: Entry)
    requires GenesisRows(s.validators) && c == LiveCopy(s) && s.delegations == map[] && SeatedFrom(s, k, c, e)
    ensures SeatLive(s.validators, k, e) && SeatMatches(e, c)
    ensures !s.validators[e.key].status.AutoRetired?
  {
    GenesisSeat(s, k, c, e.key);
  }

  lemma GenesisSeat(s: State, k: nat, c: Copy, v: Key)
    requires GenesisRows(s.validators) && c == LiveCopy(s) && s.delegations == map[] && v in s.validators
    ensures Seatable(s, k, c, v) && FrozenTotal(c, v) == At(c.bonds, v) == s.validators[v].selfStake > 0
    ensures Sum(StakesOn(c.stakes, v)) == 0 && GenesisRow(s.validators[v])
  {
    assert GenesisRow(s.validators[v]);
    assert StakesOn(c.stakes, v) == map[];
  }

  lemma GenesisHolds(p: Params, vals: map<Key, Validator>, pool: nat, allocs: map<nat, Allocation>, tb: Tiebreak)
    requires ValidParams(p) && GenesisRows(vals) && Seed(p, vals, pool, allocs).genesisSupply <= STORE_MAX
    ensures Inv(Genesis(p, vals, pool, allocs, tb))
  {
    hide RowsOk, CountOk, SeatsLive, NotRetired, SeatsMatch, CommitteeFrom;
    var s := Seed(p, vals, pool, allocs);
    var g, c := Genesis(p, vals, pool, allocs, tb), LiveCopy(s);
    GenesisRowsOk(vals);
    var v :| v in vals;
    GenesisSeats(s, 0, c, tb, v);
    GenesisSeats(s, EPOCH, c, tb, v);
    GenesisCopies(s);
  }

  lemma GenesisCopies(s: State)
    requires GenesisRows(s.validators) && s.delegations == map[] && s.coins == map[]
    ensures CopyFits(LiveCopy(s), 0, s.validators)
    ensures StakesCovered(map[0 := LiveCopy(s)], s.coins, s.delegations)
    ensures BondsCovered(map[0 := LiveCopy(s)], s.coins, s.validators)
  {
    var copies := map[0 := LiveCopy(s)];
    forall v | v in s.validators ensures GenesisRow(s.validators[v]) {}
    forall b, p | b in copies ensures StakeCovered(copies[b], b, s.coins, s.delegations, p) {}
    forall b, v | b in copies ensures BondCovered(copies[b], b, s.coins, s.validators, v) {}
  }
}
