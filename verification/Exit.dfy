/** A validator that asked to leave, or was auto-retired, has its whole bond
    back, locked 84 epochs, by the second boundary at the latest: one boundary
    to leave the sets still to be frozen, one to leave the set already frozen. */
module Exit {
  import opened Ledger
  import opened Transactions
  import opened Settlement
  import opened Committee
  import opened Boundary
  import opened Runs
  import opened BoundaryProofs

  /** Retiring or auto-retired. */
  ghost predicate IsLeaving(s: State, v: Key) { v in s.validators && Leaving(s.validators[v].status) }

  /** Still leaving, with the same bond to the same destination. */
  ghost predicate StillLeaving(s: State, t: State, v: Key) {
    IsLeaving(s, v) ==>
      IsLeaving(t, v) && t.validators[v].selfStake == s.validators[v].selfStake
      && t.validators[v].destination == s.validators[v].destination
  }

  /** The bond came back at boundary h. */
  ghost predicate Returned(s: State, t: State, h: nat, v: Key)
    requires v in s.validators
  {
    && v in t.validators && t.validators[v].status.Unstaked? && t.validators[v].selfStake == 0
    && BondOut(h, v) in t.coins && t.coins[BondOut(h, v)] == BondCoin(h, v, s.validators[v])
  }

  // ── between boundaries ──────────────────────────────────────────────

  lemma ItemLeaving(s: State, h: nat, t: Tx, v: Key)
    ensures StillLeaving(s, ApplyItem(s, h, t), v) && ApplyItem(s, h, t).snapshots == s.snapshots
  {
    hide FundingOk, Moved, PowerExit, DelegatorCount;
  }

  lemma {:induction false} ItemsLeaving(s: State, h: nat, items: seq<Tx>, v: Key)
    ensures StillLeaving(s, ApplyItems(s, h, items), v) && ApplyItems(s, h, items).snapshots == s.snapshots
    decreases |items|
  {
    hide ApplyItem;
    if items != [] {
      ItemLeaving(s, h, items[0], v);
      ItemsLeaving(ApplyItem(s, h, items[0]), h, items[1..], v);
    }
  }

  // ── one boundary ────────────────────────────────────────────────────

  /** A graduation of other keys leaves v and its release alone. */
  lemma {:induction false} OthersGraduate(s: State, h: nat, ks: set<Key>, v: Key)
    requires GraduateAll(s, h, ks).Ok? && v !in ks && v in s.validators
    ensures var t := GraduateAll(s, h, ks).value;
            v in t.validators && t.validators[v] == s.validators[v]
            && (BondOut(h, v) in s.coins ==>
                  BondOut(h, v) in t.coins && t.coins[BondOut(h, v)] == s.coins[BondOut(h, v)])
    decreases ks
  {
    hide StakesFree, StakeSum, StakesOn;
    if ks != {} {
      var k := Least(ks);
      OthersGraduate(GraduateOne(s, h, k).value, h, ks - {k}, v);
    }
  }

  lemma {:induction false} OwnGraduation(s: State, h: nat, ks: set<Key>, v: Key)
    requires GraduateAll(s, h, ks).Ok? && v in ks && v in s.validators
    ensures Returned(s, GraduateAll(s, h, ks).value, h, v)
    decreases ks
  {
    hide StakesFree, StakeSum, StakesOn;
    var k := Least(ks);
    var t := GraduateOne(s, h, k).value;
    if k == v {
      OthersGraduate(t, h, ks - {k}, v);
    } else {
      OwnGraduation(t, h, ks - {k}, v);
    }
  }

  lemma OpenExit(s: State, h: nat, v: Key)
    requires IsBoundary(h) && Open(s, h).Ok? && IsLeaving(s, v)
    ensures h in s.snapshots
    ensures v !in SeatKeys(s.snapshots[h]) ==> Returned(s, Open(s, h).value, h, v)
    ensures v in SeatKeys(s.snapshots[h]) ==> StillLeaving(s, Open(s, h).value, v)
  {
    hide Settle, GraduateAll, SeatKeys;
    GraduateSnapshots(s, h);
    var s0 := ActivateCommissions(s, h);
    SettleRows(s0, h);
    var s1 := Settle(s0, h).value;
    var s2 := Payday(s1, h).value;
    assert s2.validators == s0.validators && s2.snapshots == s.snapshots;
    if v in SeatKeys(s.snapshots[h]) {
      OthersGraduate(s2, h, Graduates(s2, h), v);
    } else {
      OwnGraduation(s2, h, Graduates(s2, h), v);
    }
  }

  lemma SettleRows(s: State, h: nat)
    requires IsBoundary(h) && Settle(s, h).Ok?
    ensures Settle(s, h).value.validators == s.validators && Settle(s, h).value.snapshots == s.snapshots
  {
    hide RoundAt, RoundOk, Credits, Accrue;
  }

  /** Rule N and the close leave a row that is not bonded alone, and seat it
      nowhere. */
  lemma RestExit(s: State, h: nat, tb: Tiebreak, v: Key)
    requires h >= EPOCH && RuleN(s, h, tb).Ok? && Close(RuleN(s, h, tb).value, h, tb).Ok?
    requires v in s.validators && !Bonded(s.validators[v].status)
    ensures var t := Close(RuleN(s, h, tb).value, h, tb).value;
            && t.coins == s.coins && v in t.validators && t.validators[v] == s.validators[v]
            && h + EPOCH in t.snapshots && v !in SeatKeys(t.snapshots[h + EPOCH])
  {
    hide CommitteeFor, Charged, LiveCopy, SeatKeys, RuleN, Close;
    RuleNLeaves(s, h, tb, v);
    CloseExit(RuleN(s, h, tb).value, h, tb, v);
  }

  lemma RuleNLeaves(s: State, h: nat, tb: Tiebreak, v: Key)
    requires h >= EPOCH && RuleN(s, h, tb).Ok? && v in s.validators && !Bonded(s.validators[v].status)
    ensures var t := RuleN(s, h, tb).value;
            t.coins == s.coins && v in t.validators && t.validators[v] == s.validators[v]
  {
    hide CommitteeFor, Charged, Allowed, BondedKeys;
  }

  lemma CloseExit(s: State, h: nat, tb: Tiebreak, v: Key)
    requires h >= EPOCH && Close(s, h, tb).Ok? && v in s.validators && !Bonded(s.validators[v].status)
    ensures var t := Close(s, h, tb).value;
            && t.coins == s.coins && v in t.validators && t.validators[v] == s.validators[v]
            && h + EPOCH in t.snapshots && v !in SeatKeys(t.snapshots[h + EPOCH])
  {
    hide CommitteeFor, LiveCopy, SeatKeys;
    NotSeated(Flip(ResetAttendance(s), h), h + EPOCH, tb, v);
  }

  lemma NotSeated(s: State, eStart: nat, tb: Tiebreak, v: Key)
    requires eStart >= 2 * EPOCH && v in s.validators && !Bonded(s.validators[v].status)
    ensures v !in SeatKeys(CommitteeFor(s, eStart, tb))
  {
    hide CommitteeFrom;
    if eStart - 2 * EPOCH in s.copies { CommitteeSeats(s, eStart, s.copies[eStart - 2 * EPOCH], tb); }
  }

  lemma BoundaryExit(s: State, h: nat, tb: Tiebreak, v: Key)
    requires IsBoundary(h) && RunBoundary(s, h, tb).Ok? && IsLeaving(s, v)
    ensures h in s.snapshots
    ensures var t := RunBoundary(s, h, tb).value;
            && h + EPOCH in t.snapshots && v !in SeatKeys(t.snapshots[h + EPOCH])
            && (v !in SeatKeys(s.snapshots[h]) ==> Returned(s, t, h, v))
            && (v in SeatKeys(s.snapshots[h]) ==> StillLeaving(s, t, v))
  {
    hide Open, RuleN, Close, SeatKeys;
    OpenExit(s, h, v);
    RestExit(Open(s, h).value, h, tb, v);
  }

  // ── runs ────────────────────────────────────────────────────────────

  lemma BlockExit(s: State, b: Block, v: Key)
    requires ApplyBlock(s, b).Ok? && IsLeaving(s, v)
    ensures var h, t := s.height + 1, ApplyBlock(s, b).value;
            && t.height == h
            && (!IsBoundary(h) ==> StillLeaving(s, t, v) && t.snapshots == s.snapshots)
            && (IsBoundary(h) ==>
                  && h in s.snapshots && h + EPOCH in t.snapshots && v !in SeatKeys(t.snapshots[h + EPOCH])
                  && (v !in SeatKeys(s.snapshots[h]) ==> Returned(s, t, h, v))
                  && (v in SeatKeys(s.snapshots[h]) ==> StillLeaving(s, t, v)))
  {
    hide RunBoundary, ApplyItems, SeatKeys;
    ItemsLeaving(s, s.height + 1, b.items, v);
    if IsBoundary(s.height + 1) { BoundaryExit(BeforeBoundary(s, b), s.height + 1, b.tb, v); }
  }

  lemma RunStep(s: State, blocks: seq<Block>, n: nat)
    requires 0 < n <= |blocks| && Run(s, blocks[..n]).Ok?
    ensures Run(s, blocks[..n - 1]).Ok?
    ensures ApplyBlock(Run(s, blocks[..n - 1]).value, blocks[n - 1]) == Run(s, blocks[..n])
  {
    assert blocks[..n][..n - 1] == blocks[..n - 1];
  }

  lemma {:induction false} PrefixOk(s: State, blocks: seq<Block>, m: nat, n: nat)
    requires m <= n <= |blocks| && Run(s, blocks[..n]).Ok?
    ensures Run(s, blocks[..m]).Ok? && Run(s, blocks[..m]).value.height == s.height + m
    decreases n
  {
    hide ApplyBlock;
    if m < n {
      RunStep(s, blocks, n);
      PrefixOk(s, blocks, m, n - 1);
    } else if n > 0 {
      RunStep(s, blocks, n);
      PrefixOk(s, blocks, n - 1, n - 1);
      HeightUp(Run(s, blocks[..n - 1]).value, blocks[n - 1]);
    }
  }

  lemma HeightUp(s: State, b: Block)
    requires ApplyBlock(s, b).Ok?
    ensures ApplyBlock(s, b).value.height == s.height + 1
  {
    hide RunBoundary;
  }

  /** Between boundaries the row stays as it is, and so do the sets. */
  lemma {:induction false} Stretch(s: State, blocks: seq<Block>, m: nat, n: nat, v: Key)
    requires m <= n <= |blocks| && Run(s, blocks[..n]).Ok?
    requires forall h :: s.height + m < h <= s.height + n ==> !IsBoundary(h)
    ensures Run(s, blocks[..m]).Ok?
    ensures var x, y := Run(s, blocks[..m]).value, Run(s, blocks[..n]).value;
            IsLeaving(x, v) ==> StillLeaving(x, y, v) && y.snapshots == x.snapshots
    decreases n
  {
    hide ApplyBlock, Run;
    PrefixOk(s, blocks, m, n);
    if m < n {
      RunStep(s, blocks, n);
      PrefixOk(s, blocks, n - 1, n - 1);
      Stretch(s, blocks, m, n - 1, v);
      var x, y := Run(s, blocks[..m]).value, Run(s, blocks[..n - 1]).value;
      if IsLeaving(x, v) { BlockExit(y, blocks[n - 1], v); }
    }
  }

  /** The first boundary after height h. */
  function NextBoundary(h: nat): (b: nat)
    ensures h < b <= h + EPOCH && IsBoundary(b)
    ensures forall x :: h < x < b ==> !IsBoundary(x)
  {
    var b := EpochStart(h) + EPOCH;
    assert b == (h / EPOCH + 1) * EPOCH;
    assert forall x :: h < x < b ==> !IsBoundary(x) by {
      forall x | h < x < b ensures !IsBoundary(x) { assert x / EPOCH == h / EPOCH; }
    }
    b
  }

  /** A boundary met while leaving: back now, or free of the set that takes
      effect at the next one. */
  lemma AtBoundary(s: State, blocks: seq<Block>, m: nat, n: nat, v: Key)
    requires m < n <= |blocks| && Run(s, blocks[..n]).Ok? && IsBoundary(s.height + n)
    requires forall h :: s.height + m < h < s.height + n ==> !IsBoundary(h)
    ensures Run(s, blocks[..m]).Ok?
    ensures var h, x, y := s.height + n, Run(s, blocks[..m]).value, Run(s, blocks[..n]).value;
            IsLeaving(x, v) ==>
              && h in x.snapshots && h + EPOCH in y.snapshots && v !in SeatKeys(y.snapshots[h + EPOCH])
              && (v !in SeatKeys(x.snapshots[h]) ==> Returned(x, y, h, v))
              && (v in SeatKeys(x.snapshots[h]) ==> StillLeaving(x, y, v))
  {
    hide ApplyBlock, Run, SeatKeys, IsBoundary;
    PrefixOk(s, blocks, m, n);
    PrefixOk(s, blocks, n - 1, n);
    RunStep(s, blocks, n);
    Stretch(s, blocks, m, n - 1, v);
    var x, y := Run(s, blocks[..m]).value, Run(s, blocks[..n - 1]).value;
    if IsLeaving(x, v) { BlockExit(y, blocks[n - 1], v); }
  }

  /** Over every run: a validator that is leaving, of its own will or by Rule
      N, has its whole bond back at the first boundary, or at the second. */
  lemma ExitCompletes(s: State, blocks: seq<Block>, v: Key)
    requires Run(s, blocks).Ok? && IsLeaving(s, v)
    requires NextBoundary(s.height) + EPOCH <= s.height + |blocks|
    ensures var n := NextBoundary(s.height) - s.height;
            && Run(s, blocks[..n]).Ok? && Run(s, blocks[..n + EPOCH]).Ok?
            && (Returned(s, Run(s, blocks[..n]).value, s.height + n, v)
                || Returned(s, Run(s, blocks[..n + EPOCH]).value, s.height + n + EPOCH, v))
  {
    hide Run, SeatKeys, NextBoundary;
    var n := NextBoundary(s.height) - s.height;
    assert blocks[..|blocks|] == blocks;
    PrefixOk(s, blocks, n, |blocks|);
    PrefixOk(s, blocks, n + EPOCH, |blocks|);
    NothingRun(s, blocks);
    AtBoundary(s, blocks, 0, n, v);
    var y := Run(s, blocks[..n]).value;
    if v in SeatKeys(s.snapshots[s.height + n]) {
      BoundaryGap(s.height + n);
      AtBoundary(s, blocks, n, n + EPOCH, v);
    }
  }

  lemma NothingRun(s: State, blocks: seq<Block>)
    ensures Run(s, blocks[..0]) == Ok(s)
  {
  }

  lemma BoundaryGap(b: nat)
    requires IsBoundary(b)
    ensures IsBoundary(b + EPOCH) && forall x :: b < x < b + EPOCH ==> !IsBoundary(x)
  {
    forall x | b < x < b + EPOCH ensures !IsBoundary(x) { assert x / EPOCH == b / EPOCH; }
  }
}
