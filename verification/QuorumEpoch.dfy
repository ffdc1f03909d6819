/** The participation bar inside a run: in an epoch whose blocks all carry a
    commit of more than two thirds of the set in effect, some seat of that set
    is not charged, and it is paid if its share is anything at all. */
module QuorumEpoch {
  import opened Ledger
  import opened Transactions
  import opened Settlement
  import opened Boundary
  import opened Invariant
  import opened BoundaryProofs
  import opened Runs
  import opened AttendanceBar

  /** The voting power of a set, by key. */
  function SeatPower(es: seq<Entry>): (r: map<Key, nat>)
    ensures forall v :: v in r ==> exists i :: 0 <= i < |es| && es[i].key == v && Power(es[i]) == r[v]
  {
    if es == [] then map[]
    else
      var n := |es| - 1;
      var head := SeatPower(es[..n]);
      assert forall v :: v in head ==> exists i :: 0 <= i < n && es[..n][i].key == v && Power(es[..n][i]) == head[v];
      head[es[n].key := Power(es[n])]
  }

  function VotesOf(blocks: seq<Block>): (r: seq<seq<Vote>>)
    ensures |r| == |blocks| && forall i :: 0 <= i < |r| ==> r[i] == blocks[i].votes
  {
    seq(|blocks|, i requires 0 <= i < |blocks| => blocks[i].votes)
  }

  // ── attendance inside an epoch ──────────────────────────────────────

  lemma ItemTables(s: State, h: nat, t: Tx)
    ensures ApplyItem(s, h, t).attendance == s.attendance && ApplyItem(s, h, t).snapshots == s.snapshots
  {
    hide Exec;
    ExecTouches(s, h, t);
  }

  lemma {:induction false} ItemsTables(s: State, h: nat, items: seq<Tx>)
    ensures ApplyItems(s, h, items).attendance == s.attendance && ApplyItems(s, h, items).snapshots == s.snapshots
    decreases |items|
  {
    hide ApplyItem;
    if items != [] {
      ItemTables(s, h, items[0]);
      ItemsTables(ApplyItem(s, h, items[0]), h, items[1..]);
    }
  }

  lemma BlockTables(s: State, b: Block)
    ensures BeforeBoundary(s, b).snapshots == s.snapshots
    ensures BeforeBoundary(s, b).attendance == Credit(s.attendance, s.height + 1, b.votes)
  {
    hide ApplyItems, Credit;
    ItemsTables(s, s.height + 1, b.items);
  }

  lemma InsideEpoch(start: nat, n: nat)
    requires start % EPOCH == 0 && 0 < n < EPOCH
    ensures !IsBoundary(start + n)
  {
  }

  lemma PlainBlock(s: State, b: Block)
    requires !IsBoundary(s.height + 1) && ApplyBlock(s, b).Ok?
    ensures var t := ApplyBlock(s, b).value;
            && t.height == s.height + 1 && t.snapshots == s.snapshots
            && t.attendance == Credit(s.attendance, s.height + 1, b.votes)
  {
    hide BeforeBoundary, RunBoundary, Credit, IsBoundary, ApplyItems;
    BlockTables(s, b);
  }

  /** Up to the next boundary the table is the credits of the votes. */
  lemma {:induction false} EpochTables(s: State, blocks: seq<Block>)
    requires s.height % EPOCH == 0 && |blocks| < EPOCH && Run(s, blocks).Ok?
    ensures var t := Run(s, blocks).value;
            && t.height == s.height + |blocks| && t.snapshots == s.snapshots
            && t.attendance == Credited(s.attendance, s.height, VotesOf(blocks))
    decreases |blocks|
  {
    hide ApplyBlock, Credit, IsBoundary, Credited, VotesOf, Run;
    if blocks == [] {
      NoBlocks(s);
    } else {
      var n := |blocks| - 1;
      LastBlock(s, blocks);
      EpochTables(s, blocks[..n]);
      LastCredit(s.attendance, s.height, blocks);
      InsideEpoch(s.height, n + 1);
      PlainBlock(Run(s, blocks[..n]).value, blocks[n]);
    }
  }

  lemma NoBlocks(s: State)
    ensures Run(s, []) == Ok(s) && Credited(s.attendance, s.height, VotesOf([])) == s.attendance
  {
  }

  lemma LastBlock(s: State, blocks: seq<Block>)
    requires blocks != [] && Run(s, blocks).Ok?
    ensures var n := |blocks| - 1;
            Run(s, blocks[..n]).Ok? && Run(s, blocks) == ApplyBlock(Run(s, blocks[..n]).value, blocks[n])
  {
    hide ApplyBlock;
  }

  lemma LastCredit(att: map<Key, Attendance>, from: nat, blocks: seq<Block>)
    requires blocks != []
    ensures var n := |blocks| - 1;
            Credited(att, from, VotesOf(blocks))
            == Credit(Credited(att, from, VotesOf(blocks[..n])), from + n + 1, blocks[n].votes)
  {
    hide Credit, VotesOf;
    var n := |blocks| - 1;
    assert VotesOf(blocks)[..n] == VotesOf(blocks[..n]);
  }

  lemma {:induction false} CreditedTail(att: map<Key, Attendance>, from: nat, lists: seq<seq<Vote>>)
    requires lists != []
    ensures Credited(att, from, lists) == Credited(Credit(att, from + 1, lists[0]), from + 1, lists[1..])
  {
    hide Credit;
    var n := |lists| - 1;
    if n > 0 {
      CreditedTail(att, from, lists[..n]);
      assert lists[..n][1..] == lists[1..][..n - 1];
    } else {
      assert lists[..0] == [] && lists[1..] == [];
    }
  }

  // ── the boundary ────────────────────────────────────────────────────

  lemma OpenAttendance(s: State, h: nat)
    requires IsBoundary(h) && Open(s, h).Ok?
    ensures Open(s, h).value.attendance == s.attendance
  {
    hide RoundAt, RoundOk, Credits, Accrue, GraduateAll, Graduates;
    var s1 := Settle(ActivateCommissions(s, h), h).value;
    var s2 := Payday(s1, h).value;
    GraduateAttendance(s2, h, Graduates(s2, h));
  }

  lemma {:induction false} GraduateAttendance(s: State, h: nat, ks: set<Key>)
    requires GraduateAll(s, h, ks).Ok?
    ensures GraduateAll(s, h, ks).value.attendance == s.attendance
    decreases ks
  {
    hide StakesFree, Released, StakeSum;
    if ks != {} {
      var v := Least(ks);
      GraduateAttendance(GraduateOne(s, h, v).value, h, ks - {v});
    }
  }

  /** A seat that meets the bar is not charged, ... */
  lemma MeetsNotCharged(u: State, h: nat, i: nat)
    requires Inv(u) && h == u.height + 1 && IsBoundary(h) && h - EPOCH in u.snapshots
    requires i < |u.snapshots[h - EPOCH]| && MeetsBar(u.attendance, u.snapshots[h - EPOCH][i].key, h)
    ensures Open(u, h).Ok? && !Charged(Open(u, h).value, h, u.snapshots[h - EPOCH][i].key)
  {
    hide Inv, Open, MeetsBar, OnDuty, Mid, NoneAuto, BondedKept;
    OpenKeeps(u, h);
    OpenAttendance(u, h);
  }

  /** ... and keeps its share. */
  lemma MeetsAndIsPaid(u: State, h: nat, i: nat)
    requires Inv(u) && h == u.height + 1 && IsBoundary(h) && h - EPOCH in u.snapshots
    requires i < |u.snapshots[h - EPOCH]| && MeetsBar(u.attendance, u.snapshots[h - EPOCH][i].key, h)
    ensures var r := RoundAt(ActivateCommissions(u, h), h);
            i < |r.seats| == |r.shares| && (r.shares[i] > 0 ==> Paid(r, i))
  {
    hide Inv, MeetsBar, Shares, EpochStart;
    LastBoundary(h);
    SeatRow(u, h, i);
  }

  lemma SeatRow(u: State, h: nat, i: nat)
    requires Inv(u) && EpochStart(u.height) == h - EPOCH && h - EPOCH in u.snapshots && i < |u.snapshots[h - EPOCH]|
    ensures u.snapshots[h - EPOCH][i].key in u.validators
  {
    hide RowsOk, CountOk, IdsOk, AccrualOk, CopiesOk, GatesOk, StakesCovered, BondsCovered, Conserved, EpochStart;
    assert SeatLive(u.validators, h - EPOCH, u.snapshots[h - EPOCH][i]);
  }

  /** Seat i of the set that served the epoch has power, is not charged, and
      is paid its share if it has one. */
  ghost predicate PaidSeat(u: State, h: nat, i: nat)
    requires IsBoundary(h) && h - EPOCH in u.snapshots && i < |u.snapshots[h - EPOCH]|
  {
    var e, r := u.snapshots[h - EPOCH][i], RoundAt(ActivateCommissions(u, h), h);
    && Power(e) > 0 && Open(u, h).Ok? && !Charged(Open(u, h).value, h, e.key)
    && i < |r.seats| == |r.shares| && (r.shares[i] > 0 ==> Paid(r, i))
  }

  ghost predicate SomePaidSeat(u: State, h: nat) {
    && IsBoundary(h) && h - EPOCH in u.snapshots
    && exists i :: 0 <= i < |u.snapshots[h - EPOCH]| && PaidSeat(u, h, i)
  }

  /** Every block of the epoch but the first two carries a commit of more than
      two thirds of the power of the set that serves it. A change of the set
      at boundary H holds from block H + 2 on, whose commit is in block H + 3;
      the commits in the first two blocks are the previous set's. */
  ghost predicate CarriesQuorum(s: State, blocks: seq<Block>) {
    && s.height in s.snapshots
    && forall i :: 2 <= i < |blocks| ==> Quorum(SeatPower(s.snapshots[s.height]), blocks[i].votes)
  }

  /** Over every run: an epoch whose blocks carry such commits leaves some
      seat with power uncharged at its boundary, and paid if it has a share. */
  lemma SomeSeatIsPaid(s: State, blocks: seq<Block>)
    requires Inv(s) && s.height % EPOCH == 0 && |blocks| == EPOCH && Run(s, blocks[..EPOCH - 1]).Ok?
    requires CarriesQuorum(s, blocks)
    ensures var u := BeforeBoundary(Run(s, blocks[..EPOCH - 1]).value, blocks[EPOCH - 1]);
            u.height == s.height + EPOCH - 1 && u.snapshots == s.snapshots && SomePaidSeat(u, s.height + EPOCH)
  {
    hide Inv, Open, Charged, MeetsBar, Run, Quorum, Power, BeforeBoundary, Credit, PaidSeat, VotesOf, Credited;
    var h, n, seats := s.height + EPOCH, EPOCH - 1, s.snapshots[s.height];
    var head := blocks[..n];
    EpochTables(s, head);
    RunKeeps(s, head);
    var t := Run(s, head).value;
    BlockTables(t, blocks[n]);
    BeforeKeeps(t, blocks[n]);
    var u, votes := BeforeBoundary(t, blocks[n]), VotesOf(blocks);
    LastCredit(s.attendance, s.height, blocks);
    CreditedTail(s.attendance, s.height, votes);
    var att := Credit(s.attendance, s.height + 1, votes[0]);
    CreditedTail(att, s.height + 1, votes[1..]);
    assert votes[1..][1..] == votes[2..];
    SomeoneMeetsBar(SeatPower(seats), Credit(att, s.height + 2, votes[1]), s.height + 2, votes[2..]);
    var v :| v in SeatPower(seats) && SeatPower(seats)[v] > 0 && MeetsBar(u.attendance, v, h);
    var i :| 0 <= i < |seats| && seats[i].key == v && Power(seats[i]) == SeatPower(seats)[v];
    PaidSeatFrom(u, h, i);
  }

  lemma PaidSeatFrom(u: State, h: nat, i: nat)
    requires Inv(u) && h == u.height + 1 && IsBoundary(h) && h - EPOCH in u.snapshots
    requires i < |u.snapshots[h - EPOCH]| && MeetsBar(u.attendance, u.snapshots[h - EPOCH][i].key, h)
    requires Power(u.snapshots[h - EPOCH][i]) > 0
    ensures PaidSeat(u, h, i)
  {
    hide Inv, Open, Charged, MeetsBar, Power, RoundAt, ActivateCommissions, Paid;
    MeetsNotCharged(u, h, i);
    MeetsAndIsPaid(u, h, i);
  }
}
