/** Rewards over blocks and runs: what a boundary leaves accrued or pays out,
    owner by owner, and that over a run nothing earned is lost. */
module Income {
  import opened Sums
  import opened Ledger
  import opened Transactions
  import opened Settlement
  import opened Committee
  import opened Boundary
  import opened Invariant
  import opened BoundaryProofs
  import opened Runs
  import opened Rewards
  import opened Votes

  // ── one boundary ────────────────────────────────────────────────────

  lemma {:induction false} SameEarned(s: State, t: State, h: nat, n: nat, o: Key)
    requires h >= 720 && t == s.(validators := t.validators) && t.validators.Keys == s.validators.Keys
    requires n <= |Served(s, h)|
    ensures Served(t, h) == Served(s, h) && Earned(t, h, n, o) == Earned(s, h, n, o)
    decreases n
  {
    if n > 0 { SameEarned(s, t, h, n - 1, o); }
  }

  /** Rows of zero are never kept, so being in the table is being owed. */
  lemma SettledRows(s: State, h: nat)
    requires IsBoundary(h) && AccrualOk(s.accrual) && Settle(s, h).Ok?
    ensures AccrualOk(Settle(s, h).value.accrual) && Settle(s, h).value.coins == s.coins
    ensures Settle(s, h).value.params == s.params
  {
    hide RoundAt, RoundOk, Credits;
  }

  lemma {:induction false} GraduatePays(s: State, h: nat, ks: set<Key>, c: CoinId)
    requires GraduateAll(s, h, ks).Ok? && c.PaydayOut?
    ensures var t := GraduateAll(s, h, ks).value;
            && t.accrual == s.accrual && (c in t.coins <==> c in s.coins)
            && (c in s.coins ==> t.coins[c] == s.coins[c])
    decreases ks
  {
    hide StakesFree, StakeSum, StakesOn;
    if ks != {} {
      var v := Least(ks);
      GraduatePays(GraduateOne(s, h, v).value, h, ks - {v}, c);
    }
  }

  lemma RestPays(s: State, h: nat, tb: Tiebreak)
    requires h >= EPOCH && RuleN(s, h, tb).Ok? && Close(RuleN(s, h, tb).value, h, tb).Ok?
    ensures var t := Close(RuleN(s, h, tb).value, h, tb).value;
            t.accrual == s.accrual && t.coins == s.coins && t.delegations == s.delegations
  {
    hide CommitteeFor, Charged, Due, LiveCopy, SeatKeys, Allowed, BondedKeys, Recount, Retire, Flip;
    RuleNPays(s, h, tb);
    ClosePays(RuleN(s, h, tb).value, h, tb);
  }

  lemma RuleNPays(s: State, h: nat, tb: Tiebreak)
    requires h >= EPOCH && RuleN(s, h, tb).Ok?
    ensures var t := RuleN(s, h, tb).value;
            t.accrual == s.accrual && t.coins == s.coins && t.delegations == s.delegations
  {
    hide CommitteeFor, Charged, Due, Allowed, BondedKeys;
  }

  lemma ClosePays(s: State, h: nat, tb: Tiebreak)
    requires h >= EPOCH && Close(s, h, tb).Ok?
    ensures var t := Close(s, h, tb).value;
            t.accrual == s.accrual && t.coins == s.coins && t.delegations == s.delegations
  {
    hide CommitteeFor, LiveCopy, SeatKeys;
  }

  /** What an owner is owed once boundary h has shared its pool. */
  function Owed(s: State, h: nat, o: Key): nat
    requires h >= 720
  {
    At(s.accrual, o) + Reward(s, h, o)
  }

  /** Every payoutInterval-th epoch the table is emptied and whoever was owed
      anything has one new unlocked coin of exactly that; at any other boundary
      it stays owed, and no coin is made. */
  ghost predicate PaidOut(s: State, t: State, h: nat, o: Key) {
    && h >= 720
    && var c, x := PaydayOut(h, o), Owed(s, h, o);
       if h / 720 % s.params.payoutInterval == 0 then
         && t.accrual == map[] && (c in t.coins <==> x > 0)
         && (x > 0 ==> t.coins[c] == Coin(o, x, 0, Plain))
       else At(t.accrual, o) == x && c !in t.coins
  }

  lemma OpenPays(s: State, h: nat, o: Key)
    requires Inv(s) && h == s.height + 1 && IsBoundary(h) && Open(s, h).Ok?
    ensures PaidOut(s, Open(s, h).value, h, o)
  {
    hide Inv, Settle, GraduateAll, Graduates, Reward;
    BoundaryFresh(s, h);
    var s0 := ActivateCommissions(s, h);
    SameEarned(s, s0, h, |Served(s, h)|, o);
    SettledRows(s0, h);
    RewardPaid(s0, h, o);
    SameReward(s, s0, h, o);
    var s1 := Settle(s0, h).value;
    var s2 := Payday(s1, h).value;
    GraduatePays(s2, h, Graduates(s2, h), PaydayOut(h, o));
  }

  lemma SameReward(s: State, t: State, h: nat, o: Key)
    requires h >= 720 && t == s.(validators := t.validators) && t.validators.Keys == s.validators.Keys
    ensures Reward(t, h, o) == Reward(s, h, o)
  {
    SameEarned(s, t, h, |Served(s, h)|, o);
  }

  lemma BoundaryFresh(s: State, h: nat)
    requires Inv(s) && h == s.height + 1 && IsBoundary(h)
    ensures AccrualOk(s.accrual) && forall k :: PaydayOut(h, k) !in s.coins
  {
    hide RowsOk, CountOk, CopiesOk, SnapshotsOk, GatesOk, StakesCovered, BondsCovered, Conserved;
    LastBoundary(h);
  }

  lemma BoundaryPays(s: State, h: nat, tb: Tiebreak, o: Key)
    requires Inv(s) && h == s.height + 1 && IsBoundary(h) && RunBoundary(s, h, tb).Ok?
    ensures PaidOut(s, RunBoundary(s, h, tb).value, h, o)
  {
    hide Inv, Open, RuleN, Close, Owed;
    OpenPays(s, h, o);
    RestPays(Open(s, h).value, h, tb);
  }

  // ── runs ────────────────────────────────────────────────────────────

  lemma {:induction false} ItemsOwe(s: State, h: nat, items: seq<Tx>)
    ensures ApplyItems(s, h, items).accrual == s.accrual
    decreases |items|
  {
    hide Exec;
    if items != [] {
      ExecTouches(s, h, items[0]);
      ItemsOwe(ApplyItem(s, h, items[0]), h, items[1..]);
    }
  }

  /** One block, if it is a boundary: what it shares out to the owner, and
      what it pays out. */
  function SharedAt(u: State, h: nat, o: Key): nat {
    if h >= 720 && h % 720 == 0 then Reward(u, h, o) else 0
  }

  function CoinAt(t: State, h: nat, o: Key): nat {
    if PaydayOut(h, o) in t.coins then t.coins[PaydayOut(h, o)].amount else 0
  }

  ghost function EarnedIn(s: State, blocks: seq<Block>, o: Key): nat
    requires Run(s, blocks).Ok?
    decreases |blocks|
  {
    if blocks == [] then 0
    else
      var head, b := blocks[..|blocks| - 1], blocks[|blocks| - 1];
      var t := Run(s, head).value;
      EarnedIn(s, head, o) + SharedAt(BeforeBoundary(t, b), t.height + 1, o)
  }

  ghost function PaidIn(s: State, blocks: seq<Block>, o: Key): nat
    requires Run(s, blocks).Ok?
    decreases |blocks|
  {
    if blocks == [] then 0
    else
      var head := blocks[..|blocks| - 1];
      var t := Run(s, head).value;
      PaidIn(s, head, o) + CoinAt(Run(s, blocks).value, t.height + 1, o)
  }

  lemma BlockPays(s: State, b: Block, o: Key)
    requires Inv(s) && ApplyBlock(s, b).Ok?
    ensures var h, t := s.height + 1, ApplyBlock(s, b).value;
            && CoinAt(t, h, o) + At(t.accrual, o) == At(s.accrual, o) + SharedAt(BeforeBoundary(s, b), h, o)
            && (IsBoundary(h) ==> PaidOut(BeforeBoundary(s, b), t, h, o))
  {
    hide Inv, RunBoundary, ApplyItems, Reward;
    var h, u := s.height + 1, BeforeBoundary(s, b);
    ItemsOwe(s, h, b.items);
    BeforeKeeps(s, b);
    if IsBoundary(h) {
      BoundaryPays(u, h, b.tb, o);
    } else {
      NoneYet(u, o);
    }
  }

  /** Payday coins are named after boundaries, and only past ones exist. */
  lemma NoneYet(s: State, o: Key)
    requires Inv(s)
    ensures PaydayOut(s.height + 1, o) !in s.coins
  {
    hide RowsOk, CountOk, CopiesOk, SnapshotsOk, GatesOk, StakesCovered, BondsCovered, Conserved;
    assert EpochStart(s.height) <= s.height;
  }

  /** Over every run an owner's payday coins and what is still owed to it are
      what was owed before and everything its seats and stakes earned. */
  lemma {:induction false} EarnedIsPaid(s: State, blocks: seq<Block>, o: Key)
    requires Inv(s) && Run(s, blocks).Ok?
    ensures PaidIn(s, blocks, o) + At(Run(s, blocks).value.accrual, o) == At(s.accrual, o) + EarnedIn(s, blocks, o)
    decreases |blocks|
  {
    hide Inv, ApplyBlock, CoinAt, SharedAt, BeforeBoundary, PaidOut;
    if blocks != [] {
      var n := |blocks| - 1;
      EarnedIsPaid(s, blocks[..n], o);
      RunKeeps(s, blocks[..n]);
      BlockPays(Run(s, blocks[..n]).value, blocks[n], o);
    }
  }

  // ── by the votes ────────────────────────────────────────────────────

  lemma WorkedByVotes(g: State, blocks: seq<Block>, b: nat, v: Key)
    requires NobodyVoted(g) && IsBoundary(b) && b <= |blocks| && Run(g, blocks[..b - 1]).Ok?
    ensures Worked(BeforeBoundary(Run(g, blocks[..b - 1]).value, blocks[b - 1]).attendance, v, b)
       <==> !MissedEpoch(blocks, b, v)
  {
    hide Run, BeforeBoundary, MeetsBar, MissedEpoch, Worked;
    MeetsBarIff(g, blocks, b, v);
    WorkedIs(BeforeBoundary(Run(g, blocks[..b - 1]).value, blocks[b - 1]).attendance, v, b);
  }

  /** Over every run from genesis, whoever's seats, its own and those it has
      frozen stakes on, all missed the epoch by its blocks' votes, is given
      nothing at its boundary. */
  lemma MissedIsUnpaid(g: State, blocks: seq<Block>, b: nat, o: Key)
    requires NobodyVoted(g) && IsBoundary(b) && b <= |blocks| && Run(g, blocks[..b - 1]).Ok?
    requires var u := BeforeBoundary(Run(g, blocks[..b - 1]).value, blocks[b - 1]);
             forall i :: 0 <= i < |Served(u, b)| && Concerns(u, b, i, o) ==> MissedEpoch(blocks, b, Served(u, b)[i].key)
    ensures Reward(BeforeBoundary(Run(g, blocks[..b - 1]).value, blocks[b - 1]), b, o) == 0
  {
    hide Run, BeforeBoundary, MissedEpoch, Concerns, Served, Earned;
    var u := BeforeBoundary(Run(g, blocks[..b - 1]).value, blocks[b - 1]);
    forall i | 0 <= i < |Served(u, b)| && Concerns(u, b, i, o)
      ensures Missed(u.attendance, Served(u, b)[i].key, b)
    {
      WorkedByVotes(g, blocks, b, Served(u, b)[i].key);
    }
    MissedBrings(u, b, |Served(u, b)|, o);
  }

  /** And a seat with a row that did not miss it is given its part. */
  lemma WorkedIsPaid(g: State, blocks: seq<Block>, b: nat, i: nat, o: Key)
    requires NobodyVoted(g) && IsBoundary(b) && b <= |blocks| && Run(g, blocks[..b - 1]).Ok?
    requires var u := BeforeBoundary(Run(g, blocks[..b - 1]).value, blocks[b - 1]);
             && i < |Served(u, b)| && Served(u, b)[i].key in u.validators
             && !MissedEpoch(blocks, b, Served(u, b)[i].key)
    ensures var u := BeforeBoundary(Run(g, blocks[..b - 1]).value, blocks[b - 1]);
            var e, x := Served(u, b)[i], Portion(u.pool, Served(u, b), i);
            && (o == e.key ==> Reward(u, b, o) >= BondPart(e, x) + FeePart(e, x))
            && (Pair(e.key, o) in Frozen(u, b).stakes ==>
                  Reward(u, b, o) >= StakePart(e, x, Frozen(u, b).stakes[Pair(e.key, o)]))
  {
    hide Run, BeforeBoundary, MissedEpoch, Served, Earned, Portion, BondPart, FeePart, StakePart;
    var u := BeforeBoundary(Run(g, blocks[..b - 1]).value, blocks[b - 1]);
    WorkedByVotes(g, blocks, b, Served(u, b)[i].key);
    EarnedAtLeast(u, b, |Served(u, b)|, i, o);
  }
}
