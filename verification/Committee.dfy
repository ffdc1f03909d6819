/** Seating the next epoch: which validators are candidates, how the frozen
    copy ranks them, and the voting-power floor a retirement must clear. */
module Committee {
  import opened Sums
  import opened Ledger
  import opened Ranking

  /** The tie-break hash of the boundary's seed block, per key. */
  type Tiebreak = Key -> int

  ghost function FrozenTotal(c: Copy, v: Key): nat {
    At(c.bonds, v) + Sum(StakesOn(c.stakes, v))
  }

  /** Bonded, two epochs tenured by the epoch's start (genesis rows always),
      and with stake in the copy the set is ranked by. */
  ghost predicate Seatable(s: State, eStart: nat, c: Copy, v: Key) {
    v in s.validators
    && Bonded(s.validators[v].status)
    && (s.validators[v].activeSince + MIN_TENURE <= eStart || s.validators[v].activeSince <= 1)
    && FrozenTotal(c, v) > 0
  }

  ghost function Candidates(s: State, eStart: nat, c: Copy): set<Key> {
    set v | v in s.validators && Seatable(s, eStart, c, v)
  }

  // ── the ranking ─────────────────────────────────────────────────────

  ghost function Score(c: Copy): Key -> int { v => FrozenTotal(c, v) }

  /** The seat of v: its frozen totals, its live commission. */
  ghost function SeatOf(vals: map<Key, Validator>, c: Copy, v: Key): Entry {
    Entry(v, FrozenTotal(c, v), At(c.bonds, v), if v in vals then vals[v].commission else 0)
  }

  ghost function SeatsOf(vals: map<Key, Validator>, c: Copy, keys: seq<Key>): (r: seq<Entry>)
    ensures |r| == |keys|
    ensures forall i :: 0 <= i < |r| ==> r[i] == SeatOf(vals, c, keys[i])
  {
    seq(|keys|, i requires 0 <= i < |keys| => SeatOf(vals, c, keys[i]))
  }

  ghost function CommitteeFrom(s: State, eStart: nat, c: Copy, tb: Tiebreak): seq<Entry> {
    SeatsOf(s.validators, c, Ranked(Score(c), tb, Candidates(s, eStart, c), s.params.seats))
  }

  /** The snapshot the boundary before `eStart` builds for it. It reads only
      the bonded rows and copy(eStart − 2E). */
  ghost function CommitteeFor(s: State, eStart: nat, tb: Tiebreak): seq<Entry>
    requires eStart >= 2 * EPOCH
  {
    if eStart - 2 * EPOCH !in s.copies then []
    else CommitteeFrom(s, eStart, s.copies[eStart - 2 * EPOCH], tb)
  }

  ghost predicate DistinctSeats(es: seq<Entry>) {
    forall i, j :: 0 <= i < j < |es| ==> es[i].key != es[j].key
  }

  ghost predicate SeatedFrom(s: State, eStart: nat, c: Copy, e: Entry) {
    Seatable(s, eStart, c, e.key) && e == SeatOf(s.validators, c, e.key)
  }

  lemma CommitteeSeats(s: State, eStart: nat, c: Copy, tb: Tiebreak)
    ensures |CommitteeFrom(s, eStart, c, tb)| <= s.params.seats
    ensures DistinctSeats(CommitteeFrom(s, eStart, c, tb))
    ensures forall i :: 0 <= i < |CommitteeFrom(s, eStart, c, tb)| ==>
              SeatedFrom(s, eStart, c, CommitteeFrom(s, eStart, c, tb)[i])
  {
    var cands := Candidates(s, eStart, c);
    var keys := Ranked(Score(c), tb, cands, s.params.seats);
    RankedDistinct(Score(c), tb, cands, s.params.seats);
    assert forall i :: 0 <= i < |keys| ==> keys[i] in cands;
  }

  // ── the set, by its stakes ──────────────────────────────────────────

  /** Bonded, staked two epochs before the set takes effect or at genesis. */
  ghost predicate MayServe(s: State, eStart: nat, v: Key) {
    v in s.validators
    && (s.validators[v].status.Active? || s.validators[v].status.Eligible?)
    && (s.validators[v].activeSince + 1440 <= eStart || s.validators[v].activeSince <= 1)
  }

  /** The frozen bond and every frozen delegation. */
  ghost function FrozenStake(c: Copy, v: Key): nat {
    (if v in c.bonds then c.bonds[v] else 0) + Sum(StakesOn(c.stakes, v))
  }

  /** More stake first; at equal stakes the smaller tie-break. */
  ghost predicate Outranks(x: nat, a: Key, y: nat, b: Key, tb: Tiebreak) {
    x >= y && (x == y ==> tb(a) <= tb(b))
  }

  ghost predicate OwnSeat(s: State, c: Copy, e: Entry) {
    && e.total == FrozenStake(c, e.key) > 0 && e.bond == (if e.key in c.bonds then c.bonds[e.key] else 0)
    && e.key in s.validators && e.commission == s.validators[e.key].commission
  }

  lemma KeysSeated(s: State, eStart: nat, c: Copy, tb: Tiebreak)
    ensures var keys, es := Ranked(Score(c), tb, Candidates(s, eStart, c), s.params.seats),
                            CommitteeFrom(s, eStart, c, tb);
            && |es| == |keys|
            && forall i :: 0 <= i < |es| ==> es[i] == SeatOf(s.validators, c, keys[i]) && keys[i] in Candidates(s, eStart, c)
  {
    hide Ranked, SeatOf, Candidates;
  }

  lemma ScoreIs(s: State, eStart: nat, c: Copy, v: Key)
    ensures Score(c)(v) == FrozenStake(c, v)
    ensures v in Candidates(s, eStart, c) <==> MayServe(s, eStart, v) && FrozenStake(c, v) > 0
    ensures SeatOf(s.validators, c, v).key == v && SeatOf(s.validators, c, v).total == FrozenStake(c, v)
    ensures v in Candidates(s, eStart, c) ==> OwnSeat(s, c, SeatOf(s.validators, c, v))
  {
    hide Sum;
  }

  /** A seat is given to who may serve, with the stakes of copy(eStart − 2E);
      a seat before another has the larger stake. */
  lemma SeatsDescend(s: State, eStart: nat, tb: Tiebreak, i: nat, j: nat)
    requires eStart >= 1440 && eStart - 1440 in s.copies && i <= j < |CommitteeFor(s, eStart, tb)|
    ensures var c, es := s.copies[eStart - 1440], CommitteeFor(s, eStart, tb);
            && MayServe(s, eStart, es[i].key) && OwnSeat(s, c, es[i])
            && Outranks(es[i].total, es[i].key, es[j].total, es[j].key, tb)
  {
    hide Ranked, SeatOf, Candidates, MayServe, OwnSeat, FrozenStake, Score, CommitteeFrom;
    var c := s.copies[eStart - 1440];
    var cands := Candidates(s, eStart, c);
    var keys := Ranked(Score(c), tb, cands, s.params.seats);
    KeysSeated(s, eStart, c, tb);
    ScoreIs(s, eStart, c, keys[i]);
    ScoreIs(s, eStart, c, keys[j]);
    if i < j { RankedSorted(Score(c), tb, cands, s.params.seats, i, j); }
  }

  /** Whoever may serve and has stake in that copy but no seat is outranked by
      every seat, and all seats are taken. */
  lemma LargestSeated(s: State, eStart: nat, tb: Tiebreak, v: Key)
    requires eStart >= 1440 && eStart - 1440 in s.copies
    requires MayServe(s, eStart, v) && FrozenStake(s.copies[eStart - 1440], v) > 0
    requires forall j :: 0 <= j < |CommitteeFor(s, eStart, tb)| ==> CommitteeFor(s, eStart, tb)[j].key != v
    ensures var c, es := s.copies[eStart - 1440], CommitteeFor(s, eStart, tb);
            && |es| == s.params.seats
            && forall i :: 0 <= i < |es| ==> Outranks(es[i].total, es[i].key, FrozenStake(c, v), v, tb)
  {
    hide Ranked, SeatOf, Candidates, MayServe, OwnSeat, FrozenStake, Score, CommitteeFrom;
    var c, es := s.copies[eStart - 1440], CommitteeFor(s, eStart, tb);
    var cands := Candidates(s, eStart, c);
    var keys := Ranked(Score(c), tb, cands, s.params.seats);
    KeysSeated(s, eStart, c, tb);
    forall i | 0 <= i < |es| ensures es[i].key == keys[i] { ScoreIs(s, eStart, c, keys[i]); }
    ScoreIs(s, eStart, c, v);
    RankedBest(Score(c), tb, cands, s.params.seats, v);
    forall i | 0 <= i < |es| ensures Outranks(es[i].total, es[i].key, FrozenStake(c, v), v, tb) {
      ScoreIs(s, eStart, c, keys[i]);
    }
  }

  lemma CommitteeNonempty(s: State, eStart: nat, c: Copy, tb: Tiebreak, v: Key)
    requires Seatable(s, eStart, c, v) && s.params.seats > 0
    ensures CommitteeFrom(s, eStart, c, tb) != []
  {
    assert v in Candidates(s, eStart, c);
  }

  /** Two states with the same bonded rows, tenure, commission and copy seat
      the same committee: nothing else is read. */
  lemma CommitteeReads(s: State, t: State, eStart: nat, tb: Tiebreak)
    requires eStart >= 2 * EPOCH
    requires t.params == s.params && t.copies == s.copies && t.validators.Keys == s.validators.Keys
    requires forall v :: v in s.validators ==>
      && Bonded(t.validators[v].status) == Bonded(s.validators[v].status)
      && t.validators[v].activeSince == s.validators[v].activeSince
      && t.validators[v].commission == s.validators[v].commission
    ensures CommitteeFor(t, eStart, tb) == CommitteeFor(s, eStart, tb)
  {
    if eStart - 2 * EPOCH in s.copies {
      var c := s.copies[eStart - 2 * EPOCH];
      assert Candidates(t, eStart, c) == Candidates(s, eStart, c);
      var keys := Ranked(Score(c), tb, Candidates(s, eStart, c), s.params.seats);
      assert SeatsOf(t.validators, c, keys) == SeatsOf(s.validators, c, keys);
    }
  }

  // ── the voting-power floor ──────────────────────────────────────────

  function Largest(ps: seq<nat>): nat {
    if ps == [] then 0
    else var m := Largest(ps[..|ps| - 1]); if ps[|ps| - 1] > m then ps[|ps| - 1] else m
  }

  /** The set still commits with its single largest member gone: a commit
      needs more than two thirds of the power. */
  predicate ClearsFloor(ps: seq<nat>) {
    SumSeq(ps) > 0 && SumSeq(ps) - Largest(ps) > SumSeq(ps) * 2 / 3
  }

  lemma {:induction false} LargestBounds(ps: seq<nat>)
    ensures Largest(ps) <= SumSeq(ps)
    ensures forall i :: 0 <= i < |ps| ==> ps[i] <= Largest(ps)
    ensures ps != [] ==> exists i :: 0 <= i < |ps| && ps[i] == Largest(ps)
  {
    if ps != [] {
      var head := ps[..|ps| - 1];
      LargestBounds(head);
      if Largest(ps) == Largest(head) && head != [] {
        var i :| 0 <= i < |head| && head[i] == Largest(head);
        assert ps[i] == Largest(ps);
      }
    }
  }

  function Powerful(ps: seq<nat>): nat {
    if ps == [] then 0 else Powerful(ps[..|ps| - 1]) + (if ps[|ps| - 1] > 0 then 1 else 0)
  }

  lemma {:induction false} SumUnderLargest(ps: seq<nat>, m: nat)
    requires forall i :: 0 <= i < |ps| ==> ps[i] <= m
    ensures SumSeq(ps) <= Powerful(ps) * m
  {
    if ps != [] {
      SumUnderLargest(ps[..|ps| - 1], m);
      Distribute(Powerful(ps[..|ps| - 1]), 1, m);
    }
  }

  /** A set that clears the floor has at least four members with power, no
      member with a third, and commits without any one member. */
  lemma FloorMeaning(ps: seq<nat>)
    requires ClearsFloor(ps)
    ensures Powerful(ps) >= 4
    ensures forall i :: 0 <= i < |ps| ==> 3 * ps[i] < SumSeq(ps) && SumSeq(ps) - ps[i] > SumSeq(ps) * 2 / 3
  {
    LargestBounds(ps);
    SumUnderLargest(ps, Largest(ps));
    if Powerful(ps) <= 3 {
      MulMono(Powerful(ps), 3, Largest(ps));
    }
  }

  /** It never clears when one member already holds a third. */
  lemma FloorNeedsSpread(ps: seq<nat>, i: nat)
    requires i < |ps| && 3 * ps[i] >= SumSeq(ps)
    ensures !ClearsFloor(ps)
  {
    LargestBounds(ps);
  }

  lemma {:induction false} EqualPowers(ps: seq<nat>, p: nat)
    requires forall i :: 0 <= i < |ps| ==> ps[i] == p
    ensures SumSeq(ps) == |ps| * p
    ensures Largest(ps) == if ps == [] then 0 else p
  {
    if ps != [] {
      EqualPowers(ps[..|ps| - 1], p);
      Distribute(|ps| - 1, 1, p);
    }
  }

  /** Equal stakes clear the floor exactly from four members on. */
  lemma FloorEqualStakes(ps: seq<nat>, p: nat)
    requires p > 0 && forall i :: 0 <= i < |ps| ==> ps[i] == p
    ensures ClearsFloor(ps) <==> |ps| >= 4
  {
    EqualPowers(ps, p);
    if |ps| >= 4 {
      MulMono(4, |ps|, p);
    } else {
      MulMono(|ps|, 3, p);
    }
  }
}
