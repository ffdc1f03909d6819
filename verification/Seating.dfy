/** The set a boundary stores, by its stakes: over every run the next set is
    the largest frozen stakes among those who may still serve. */
module Seating {
  import opened Ledger
  import opened Transactions
  import opened Settlement
  import opened Committee
  import opened Boundary
  import opened Invariant
  import opened BoundaryProofs
  import opened Runs

  /** The stored set is the committee of the state the close leaves. */
  lemma CloseSeats(s: State, h: nat, tb: Tiebreak)
    requires h >= EPOCH && Close(s, h, tb).Ok? && h - EPOCH in s.copies
    ensures var t := Close(s, h, tb).value;
            && t.snapshots == s.snapshots[h + EPOCH := CommitteeFor(t, h + EPOCH, tb)]
            && h - EPOCH in t.copies && t.copies[h - EPOCH] == s.copies[h - EPOCH] && t.params == s.params
  {
    hide CommitteeFor, LiveCopy, SeatKeys, Flip;
    var s4 := Flip(ResetAttendance(s), h);
    CloseTables(s, h, tb);
    CommitteeSame(s4, Close(s, h, tb).value, h + EPOCH, tb);
  }

  lemma CloseTables(s: State, h: nat, tb: Tiebreak)
    requires h >= EPOCH && Close(s, h, tb).Ok? && h - EPOCH in s.copies
    ensures var s4, t := Flip(ResetAttendance(s), h), Close(s, h, tb).value;
            && t.snapshots == s.snapshots[h + EPOCH := CommitteeFor(s4, h + EPOCH, tb)]
            && t.validators == s4.validators && t.params == s4.params == s.params && s4.copies == s.copies
            && h - EPOCH in t.copies && t.copies[h - EPOCH] == s.copies[h - EPOCH]
  {
    hide CommitteeFor, LiveCopy, SeatKeys;
  }

  /** Only the copy two epochs before the set is read. */
  lemma CommitteeSame(s: State, t: State, eStart: nat, tb: Tiebreak)
    requires eStart >= 2 * EPOCH && eStart - 2 * EPOCH in s.copies && eStart - 2 * EPOCH in t.copies
    requires t.copies[eStart - 2 * EPOCH] == s.copies[eStart - 2 * EPOCH]
    requires t.validators == s.validators && t.params == s.params
    ensures CommitteeFor(t, eStart, tb) == CommitteeFor(s, eStart, tb)
  {
    var c := s.copies[eStart - 2 * EPOCH];
    assert Candidates(t, eStart, c) == Candidates(s, eStart, c);
  }

  lemma RuleNTables(s: State, h: nat, tb: Tiebreak)
    requires h >= EPOCH && RuleN(s, h, tb).Ok?
    ensures var t := RuleN(s, h, tb).value; t.copies == s.copies && t.snapshots == s.snapshots
  {
    hide CommitteeFor, Charged, Due, Allowed, BondedKeys;
  }

  lemma {:induction false} GraduateTables(s: State, h: nat, ks: set<Key>)
    requires GraduateAll(s, h, ks).Ok?
    ensures var t := GraduateAll(s, h, ks).value; t.copies == s.copies && t.snapshots == s.snapshots
    decreases ks
  {
    hide StakesFree, Released, StakeSum;
    if ks != {} {
      var v := Least(ks);
      GraduateTables(GraduateOne(s, h, v).value, h, ks - {v});
    }
  }

  lemma CommissionTables(s: State, h: nat)
    ensures var t := ActivateCommissions(s, h); t.copies == s.copies && t.snapshots == s.snapshots
  {
  }

  lemma OpenTables(s: State, h: nat)
    requires IsBoundary(h) && Open(s, h).Ok?
    ensures var t := Open(s, h).value; t.copies == s.copies && t.snapshots == s.snapshots
  {
    hide Settle, GraduateAll, Graduates, ActivateCommissions;
    SettleOnly(ActivateCommissions(s, h), h);
    CommissionTables(s, h);
    var s1 := Settle(ActivateCommissions(s, h), h).value;
    var s2 := Payday(s1, h).value;
    GraduateTables(s2, h, Graduates(s2, h));
  }

  lemma BoundarySeats(s: State, h: nat, tb: Tiebreak)
    requires IsBoundary(h) && RunBoundary(s, h, tb).Ok? && h - EPOCH in s.copies
    ensures var t := RunBoundary(s, h, tb).value;
            && t.snapshots == s.snapshots[h + EPOCH := CommitteeFor(t, h + EPOCH, tb)]
            && h - EPOCH in t.copies && t.copies[h - EPOCH] == s.copies[h - EPOCH]
  {
    hide Open, RuleN, Close, CommitteeFor;
    OpenTables(s, h);
    var u := Open(s, h).value;
    RuleNTables(u, h, tb);
    CloseSeats(RuleN(u, h, tb).value, h, tb);
  }

  lemma {:induction false} ItemsTables(s: State, h: nat, items: seq<Tx>)
    ensures var t := ApplyItems(s, h, items); t.copies == s.copies && t.snapshots == s.snapshots
    decreases |items|
  {
    hide Exec;
    if items != [] {
      ExecTouches(s, h, items[0]);
      ItemsTables(ApplyItem(s, h, items[0]), h, items[1..]);
    }
  }

  /** A seat of the set t stores for the epoch from k on, and one after it. */
  ghost predicate SeatedRight(t: State, k: nat, tb: Tiebreak, i: nat, j: nat)
    requires k >= 1440 && k in t.snapshots && k - 1440 in t.copies && i <= j < |t.snapshots[k]|
  {
    var c, es := t.copies[k - 1440], t.snapshots[k];
    && MayServe(t, k, es[i].key) && OwnSeat(t, c, es[i])
    && Outranks(es[i].total, es[i].key, es[j].total, es[j].key, tb)
    && (i != j ==> es[i].key != es[j].key)
  }

  /** v has no seat in that set because all are taken by larger stakes. */
  ghost predicate LeftOut(t: State, k: nat, tb: Tiebreak, v: Key)
    requires k >= 1440 && k in t.snapshots && k - 1440 in t.copies
  {
    var c, es := t.copies[k - 1440], t.snapshots[k];
    && |es| == t.params.seats
    && forall i :: 0 <= i < |es| ==> Outranks(es[i].total, es[i].key, FrozenStake(c, v), v, tb)
  }

  ghost predicate Seated(es: seq<Entry>, v: Key) { exists i :: 0 <= i < |es| && es[i].key == v }

  ghost predicate Best(t: State, k: nat, tb: Tiebreak)
    requires k >= 1440 && k in t.snapshots && k - 1440 in t.copies
  {
    && |t.snapshots[k]| <= t.params.seats
    && (forall i, j :: 0 <= i <= j < |t.snapshots[k]| ==> SeatedRight(t, k, tb, i, j))
    && (forall v :: MayServe(t, k, v) && FrozenStake(t.copies[k - 1440], v) > 0 && !Seated(t.snapshots[k], v) ==>
          LeftOut(t, k, tb, v))
  }

  lemma CommitteeBest(t: State, k: nat, tb: Tiebreak)
    requires k >= 1440 && k in t.snapshots && k - 1440 in t.copies && t.snapshots[k] == CommitteeFor(t, k, tb)
    ensures Best(t, k, tb)
  {
    hide CommitteeFor, MayServe, OwnSeat, Outranks, FrozenStake, CommitteeFrom, SeatedFrom;
    var es := t.snapshots[k];
    SeatsDistinct(t, k, tb);
    forall i, j | 0 <= i <= j < |es| ensures SeatedRight(t, k, tb, i, j) { SeatsDescend(t, k, tb, i, j); }
    forall v | MayServe(t, k, v) && FrozenStake(t.copies[k - 1440], v) > 0 && !Seated(es, v)
      ensures LeftOut(t, k, tb, v)
    {
      LargestSeated(t, k, tb, v);
    }
  }

  lemma SeatsDistinct(t: State, k: nat, tb: Tiebreak)
    requires k >= 1440 && k - 1440 in t.copies
    ensures |CommitteeFor(t, k, tb)| <= t.params.seats && DistinctSeats(CommitteeFor(t, k, tb))
  {
    hide CommitteeFrom;
    CommitteeSeats(t, k, t.copies[k - 1440], tb);
  }

  /** For the epoch after next the best set there is, and no other set touched. */
  ghost predicate NextBest(was: map<nat, seq<Entry>>, t: State, h: nat, tb: Tiebreak) {
    && h >= 720 && h + 720 in t.snapshots && h - 720 in t.copies && Best(t, h + 720, tb)
    && t.snapshots == was[h + 720 := t.snapshots[h + 720]]
  }

  lemma BoundaryBest(u: State, h: nat, tb: Tiebreak)
    requires IsBoundary(h) && h - EPOCH in u.copies && RunBoundary(u, h, tb).Ok?
    ensures NextBest(u.snapshots, RunBoundary(u, h, tb).value.(height := h), h, tb)
  {
    hide RunBoundary, CommitteeFor, Best;
    BoundarySeats(u, h, tb);
    var t := RunBoundary(u, h, tb).value;
    HeightSame(t, h, tb);
    CommitteeBest(t.(height := h), h + 720, tb);
  }

  /** Every boundary block of every run. */
  lemma NextSetBest(s: State, b: Block)
    requires Inv(s) && IsBoundary(s.height + 1) && ApplyBlock(s, b).Ok?
    ensures NextBest(s.snapshots, ApplyBlock(s, b).value, s.height + 1, b.tb)
  {
    hide Inv, RunBoundary, ApplyItems, IsBoundary, NextBest, Credit;
    var h, u := s.height + 1, BeforeBoundary(s, b);
    BeforeKeeps(s, b);
    BoundaryKeeps(u, h, b.tb);
    ItemsTables(s, h, b.items);
    BoundaryBest(u, h, b.tb);
  }

  lemma HeightSame(t: State, h: nat, tb: Tiebreak)
    requires h >= EPOCH
    ensures CommitteeFor(t.(height := h), h + EPOCH, tb) == CommitteeFor(t, h + EPOCH, tb)
  {
    hide CommitteeFrom;
    if h - EPOCH in t.copies { CommitteeSame(t, t.(height := h), h + EPOCH, tb); }
  }

  // ── what is frozen ──────────────────────────────────────────────────

  /** Boundary h freezes every bond and every delegation as it leaves them,
      and keeps what the two boundaries before it froze. */
  ghost predicate Freezes(was: map<nat, Copy>, t: State, h: nat) {
    && h in t.copies && t.copies[h].stakes == t.delegations
    && (forall v :: v in t.copies[h].bonds <==> v in t.validators && t.validators[v].selfStake > 0)
    && (forall v :: v in t.copies[h].bonds ==> t.copies[h].bonds[v] == t.validators[v].selfStake)
    && (forall b :: b in t.copies <==> b == h || (b in was && b + 1440 >= h))
    && (forall b :: b in t.copies && b != h ==> t.copies[b] == was[b])
  }

  lemma CloseFreezes(s: State, h: nat, tb: Tiebreak)
    requires h >= EPOCH && Close(s, h, tb).Ok?
    ensures Freezes(s.copies, Close(s, h, tb).value, h)
  {
    hide CommitteeFor, SeatKeys;
  }

  /** Every boundary block of every run. */
  lemma StakesFrozen(s: State, b: Block)
    requires IsBoundary(s.height + 1) && ApplyBlock(s, b).Ok?
    ensures Freezes(s.copies, ApplyBlock(s, b).value, s.height + 1)
  {
    hide ApplyItems, Open, RuleN, Close, Freezes, Credit;
    var h, r := s.height + 1, BeforeBoundary(s, b);
    ItemsTables(s, h, b.items);
    OpenTables(r, h);
    var u := Open(r, h).value;
    RuleNTables(u, h, b.tb);
    CloseFreezes(RuleN(u, h, b.tb).value, h, b.tb);
    FreezesAt(s.copies, RunBoundary(r, h, b.tb).value, h);
  }

  lemma FreezesAt(was: map<nat, Copy>, t: State, h: nat)
    requires Freezes(was, t, h)
    ensures Freezes(was, t.(height := h), h)
  {
  }
}
