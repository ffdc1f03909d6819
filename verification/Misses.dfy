/** Rule N over whole runs: the miss counter of a bonded validator is the
    number of immediately consecutive epochs, up to the last boundary, in
    which it had a duty and missed it; two of them, and a next set that clears
    the floor, are exactly what it takes to retire it. */
module Misses {
  import opened Sums
  import opened Ledger
  import opened Transactions
  import opened Settlement
  import opened Committee
  import opened Boundary
  import opened Invariant
  import opened BoundaryProofs
  import opened Runs
  import opened QuorumEpoch
  import opened Votes
  import opened Seating
  import opened Authority

  // ── the history of one run ──────────────────────────────────────────

  /** v has a seat in the set of the epoch that ends at b, and is ACTIVE. */
  ghost predicate OnWatch(u: State, b: nat, v: Key) {
    && b >= 720 && b - 720 in u.snapshots && v in u.validators && u.validators[v].status.Active?
    && Seated(u.snapshots[b - 720], v)
  }

  /** v was ACTIVE with a seat in the epoch that ended at b, and by its blocks'
      votes missed it. */
  ghost predicate ChargedAt(g: State, blocks: seq<Block>, b: nat, v: Key)
    requires b <= |blocks|
  {
    && IsBoundary(b) && Run(g, blocks[..b - 1]).Ok?
    && OnWatch(BeforeBoundary(Run(g, blocks[..b - 1]).value, blocks[b - 1]), b, v) && MissedEpoch(blocks, b, v)
  }

  /** Block `b`, at height h on top of t, charges v. */
  ghost predicate ChargedIn(t: State, b: Block, h: nat, v: Key) {
    IsBoundary(h) && Open(BeforeBoundary(t, b), h).Ok? && Charged(Open(BeforeBoundary(t, b), h).value, h, v)
  }

  /** How many boundaries in a row, ending at b, charged v. */
  ghost function Streak(g: State, blocks: seq<Block>, b: nat, v: Key): nat
    requires b <= |blocks|
    decreases b
  {
    if b < EPOCH || !ChargedAt(g, blocks, b, v) then 0 else 1 + Streak(g, blocks, b - EPOCH, v)
  }

  lemma OpenWatch(u: State, b: nat, v: Key)
    requires IsBoundary(b) && Open(u, b).Ok?
    ensures OnDuty(Open(u, b).value, b, v) <==> OnWatch(u, b, v)
    ensures Open(u, b).value.attendance == u.attendance
  {
    hide Settle, GraduateAll, SeatKeys;
    OpenAttendance(u, b);
    OpenTables(u, b);
    var s0 := ActivateCommissions(u, b);
    SettleOnly(s0, b);
    var s2 := Payday(Settle(s0, b).value, b).value;
    assert s2.validators == s0.validators;
    AllSpared(s2, b, Graduates(s2, b), v, Pair(v, v), ClaimOut(0));
  }

  /** What the boundary charges is what the votes say. */
  lemma ChargedIs(g: State, blocks: seq<Block>, b: nat, v: Key)
    requires FreshStart(g) && IsBoundary(b) && b <= |blocks| && Run(g, blocks[..b - 1]).Ok?
    ensures ChargedAt(g, blocks, b, v) <==> ChargedIn(Run(g, blocks[..b - 1]).value, blocks[b - 1], b, v)
  {
    hide Inv, Run, BeforeBoundary, Open, OnDuty, OnWatch, MeetsBar, MissedEpoch, Mid, NoneAuto, BondedKept;
    var s := Run(g, blocks[..b - 1]).value;
    var u := BeforeBoundary(s, blocks[b - 1]);
    RunKeeps(g, blocks[..b - 1]);
    BeforeKeeps(s, blocks[b - 1]);
    OpenKeeps(u, b);
    OpenWatch(u, b, v);
    MeetsBarIff(g, blocks, b, v);
  }

  // ── one row and its count ───────────────────────────────────────────

  /** n is the count of v: a bonded row carries it, a key without a bonded,
      leaving or retired row has none. */
  ghost predicate Tracks(vals: map<Key, Validator>, v: Key, n: nat) {
    && (v in vals && Bonded(vals[v].status) ==> vals[v].missed == n)
    && (v !in vals || vals[v].status.Unstaked? ==> n == 0)
  }

  lemma ItemTracks(s: State, h: nat, t: Tx, v: Key, n: nat)
    requires Tracks(s.validators, v, n)
    ensures Tracks(ApplyItem(s, h, t).validators, v, n)
  {
    hide FundingOk, Moved, PowerExit, DelegatorCount;
  }

  lemma {:induction false} ItemsTrack(s: State, h: nat, items: seq<Tx>, v: Key, n: nat)
    requires Tracks(s.validators, v, n)
    ensures Tracks(ApplyItems(s, h, items).validators, v, n)
    decreases |items|
  {
    hide ApplyItem, Tracks;
    if items != [] {
      ItemTracks(s, h, items[0], v, n);
      ItemsTrack(ApplyItem(s, h, items[0]), h, items[1..], v, n);
    }
  }

  /** Before Rule N a boundary changes no bonded row's status or counter. */
  ghost predicate BondedSame(a: map<Key, Validator>, b: map<Key, Validator>) {
    a.Keys == b.Keys
    && forall v :: v in a && Bonded(b[v].status) ==> Bonded(a[v].status) && b[v].missed == a[v].missed
  }

  lemma OpenSame(s: State, h: nat)
    requires Inv(s) && h == s.height + 1 && IsBoundary(h)
    ensures Open(s, h).Ok? && BondedSame(s.validators, Open(s, h).value.validators)
  {
    hide Inv, Settle, Payday, Graduate, Mid, Exits, NotRetired, NoneAuto, BondedKept, Graduates;
    OpenKeeps(s, h);
    var s0 := ActivateCommissions(s, h);
    CommissionsKeep(s, h);
    SettleKeeps(s0, h);
    SettleOnly(s0, h);
    var s1 := Settle(s0, h).value;
    PaydayKeeps(s1, h);
    var s2 := Payday(s1, h).value;
    MidSet(s2, h);
    GraduatesExit(s2, h);
    NextNotRetired(s1, h);
    GraduateKeeps(s2, h);
  }

  /** The row Rule N leaves: recounted, and retired when it was due and the
      next set allows it. */
  lemma RuleNRow(u: State, h: nat, tb: Tiebreak, v: Key)
    requires h >= EPOCH && RuleN(u, h, tb).Ok?
    ensures RuleN(u, h, tb).value.validators.Keys == u.validators.Keys
    ensures v in u.validators ==>
      var due := v in Due(Recount(u, h).validators) && Allowed(CommitteeFor(Retire(Recount(u, h)), h + EPOCH, tb));
      var row := RuleN(u, h, tb).value.validators[v];
      && row.missed == Recounted(u, h, v).missed
      && row.status == if due then AutoRetired else u.validators[v].status
  {
    hide CommitteeFor, Allowed, BondedKeys, Recounted, Retire, Due;
    if v in u.validators {
      RetireRow(Recount(u, h), v);
      RecountedRow(u, h, v);
    }
    RetireRow(Recount(u, h), v);
  }

  lemma RetireRow(s: State, v: Key)
    ensures Retire(s).validators.Keys == s.validators.Keys
    ensures v in s.validators ==>
              Retire(s).validators[v] == if v in Due(s.validators) then s.validators[v].(status := AutoRetired)
                                         else s.validators[v]
  {
    hide Due;
  }

  lemma RecountedRow(u: State, h: nat, v: Key)
    requires h >= EPOCH && v in u.validators
    ensures Recounted(u, h, v).status == u.validators[v].status
    ensures v in Due(Recount(u, h).validators) ==> Due(Recount(u, h).validators) != {}
  {
  }

  lemma CloseRow(s: State, h: nat, tb: Tiebreak, v: Key)
    requires h >= EPOCH && Close(s, h, tb).Ok?
    ensures Close(s, h, tb).value.validators.Keys == s.validators.Keys
    ensures v in s.validators ==>
      var row := Close(s, h, tb).value.validators[v];
      && row.missed == s.validators[v].missed
      && Bonded(row.status) == Bonded(s.validators[v].status)
      && row.status.Unstaked? == s.validators[v].status.Unstaked?
      && row.status.AutoRetired? == s.validators[v].status.AutoRetired?
  {
    hide CommitteeFor, LiveCopy, Flip;
    FlipRow(ResetAttendance(s), h, v);
  }

  lemma FlipRow(s: State, h: nat, v: Key)
    ensures Flip(s, h).validators.Keys == s.validators.Keys
    ensures v in s.validators ==>
      var row := Flip(s, h).validators[v];
      && row.missed == s.validators[v].missed
      && Bonded(row.status) == Bonded(s.validators[v].status)
      && row.status.Unstaked? == s.validators[v].status.Unstaked?
      && row.status.AutoRetired? == s.validators[v].status.AutoRetired?
  {
    hide SeatKeys;
  }

  function Next(charged: bool, n: nat): nat { if charged then n + 1 else 0 }

  /** What a boundary makes of a row that stands at n: a charged duty adds one,
      anything else starts over; and the row retires exactly when this makes
      two or more and the next set clears the floor. */
  ghost predicate TracksOver(s: State, h: nat, tb: Tiebreak, v: Key, n: nat)
    requires IsBoundary(h)
  {
    && Open(s, h).Ok? && RunBoundary(s, h, tb).Ok?
    && var u := Open(s, h).value;
       var t := RunBoundary(s, h, tb).value;
       && Tracks(t.validators, v, Next(Charged(u, h, v), n))
       && (v in t.validators && t.validators[v].status.AutoRetired?
           <==> Charged(u, h, v) && n + 1 >= AUTO_RETIRE_EPOCHS
                && Allowed(CommitteeFor(Retire(Recount(u, h)), h + EPOCH, tb)))
  }

  lemma BoundaryTracks(s: State, h: nat, tb: Tiebreak, v: Key, n: nat)
    requires Inv(s) && h == s.height + 1 && IsBoundary(h) && RunBoundary(s, h, tb).Ok?
    requires Tracks(s.validators, v, n)
    ensures TracksOver(s, h, tb, v, n)
  {
    hide Inv, Open, RuleN, Close, CommitteeFor, Allowed, MeetsBar, Mid, Retire, SeatKeys, BondedKept;
    OpenKeeps(s, h);
    OpenSame(s, h);
    var u := Open(s, h).value;
    RuleNRow(u, h, tb, v);
    CloseRow(RuleN(u, h, tb).value, h, tb, v);
  }

  // ── whole runs ──────────────────────────────────────────────────────

  ghost predicate FreshStart(g: State) {
    Inv(g) && NobodyVoted(g) && forall v :: v in g.validators ==> g.validators[v].missed == 0
  }

  lemma GenesisFresh(p: Params, vals: map<Key, Validator>, pool: nat, allocs: map<nat, Allocation>, tb: Tiebreak)
    requires ValidParams(p) && GenesisRows(vals) && Seed(p, vals, pool, allocs).genesisSupply <= STORE_MAX
    ensures FreshStart(Genesis(p, vals, pool, allocs, tb))
  {
    hide Inv, CommitteeFrom, LiveCopy;
    GenesisHolds(p, vals, pool, allocs, tb);
  }

  lemma RunPrefix(g: State, blocks: seq<Block>, n: nat)
    requires 0 < n <= |blocks|
    ensures Run(g, blocks[..n]) ==
            (if Run(g, blocks[..n - 1]).Fault? then Fault else ApplyBlock(Run(g, blocks[..n - 1]).value, blocks[n - 1]))
  {
    assert blocks[..n][..n - 1] == blocks[..n - 1];
  }

  lemma BlockTracks(t: State, b: Block, v: Key, k: nat)
    requires Inv(t) && ApplyBlock(t, b).Ok? && Tracks(t.validators, v, k)
    ensures Tracks(ApplyBlock(t, b).value.validators, v,
                   if IsBoundary(t.height + 1) then Next(ChargedIn(t, b, t.height + 1, v), k) else k)
  {
    hide Inv, RunBoundary, Open, Charged, ApplyItems, Tracks;
    BeforeKeeps(t, b);
    ItemsTrack(t, t.height + 1, b.items, v, k);
    if IsBoundary(t.height + 1) {
      BoundaryTracks(BeforeBoundary(t, b), t.height + 1, b.tb, v, k);
    }
  }

  lemma EpochBelow(n: nat)
    ensures EpochStart(n) <= n
    ensures n > 0 && !IsBoundary(n) ==> EpochStart(n) == EpochStart(n - 1)
  {
  }

  /** At every height of every run the counter of a bonded validator is its
      streak at the last boundary. */
  lemma {:induction false} CounterIsStreak(g: State, blocks: seq<Block>, n: nat, v: Key)
    requires FreshStart(g) && n <= |blocks| && Run(g, blocks[..n]).Ok?
    ensures EpochStart(n) <= n
    ensures Tracks(Run(g, blocks[..n]).value.validators, v, Streak(g, blocks, EpochStart(n), v))
  {
    hide Inv, ChargedIn, ChargedAt, Tracks, FreshStart, ApplyBlock, EpochStart;
    StartInv(g);
    EpochBelow(n);
    if n == 0 {
      assert blocks[..0] == [];
      StartTracks(g, v);
    } else {
      hide Run;
      RunPrefix(g, blocks, n);
      CounterIsStreak(g, blocks, n - 1, v);
      RunKeeps(g, blocks[..n - 1]);
      BlockTracks(Run(g, blocks[..n - 1]).value, blocks[n - 1], v, Streak(g, blocks, EpochStart(n - 1), v));
      if IsBoundary(n) {
        LastBoundary(n);
        ChargedIs(g, blocks, n, v);
      }
    }
  }

  lemma StartInv(g: State)
    requires FreshStart(g)
    ensures Inv(g) && g.height == 0
  {
  }

  lemma StartTracks(g: State, v: Key)
    requires FreshStart(g)
    ensures Tracks(g.validators, v, 0)
  {
  }

  /** Who retires in one boundary block. */
  lemma BlockRetires(t: State, b: Block, v: Key, k: nat)
    requires Inv(t) && IsBoundary(t.height + 1) && ApplyBlock(t, b).Ok? && Tracks(t.validators, v, k)
    ensures v in ApplyBlock(t, b).value.validators && ApplyBlock(t, b).value.validators[v].status.AutoRetired?
            <==> ChargedIn(t, b, t.height + 1, v) && k + 1 >= AUTO_RETIRE_EPOCHS && FloorClears(t, b)
  {
    hide Inv, RunBoundary, Open, Charged, ApplyItems, Tracks, Allowed, SparesAnyone, CommitteeFor, Retire, Recount;
    BeforeKeeps(t, b);
    ItemsTrack(t, t.height + 1, b.items, v, k);
    BoundaryTracks(BeforeBoundary(t, b), t.height + 1, b.tb, v, k);
    AllowedAfter(BeforeBoundary(t, b), t.height + 1, b.tb);
  }

  lemma AllowedAfter(r: State, h: nat, tb: Tiebreak)
    requires IsBoundary(h) && Open(r, h).Ok?
    ensures var next := CommitteeFor(Retire(Recount(Open(r, h).value, h)), h + EPOCH, tb);
            Allowed(next) <==> SparesAnyone(next)
  {
    AllowedIff(CommitteeFor(Retire(Recount(Open(r, h).value, h)), h + EPOCH, tb));
  }

  /** One vote for every whole coin of a member's total. */
  function VotesOf(es: seq<Entry>): nat {
    if es == [] then 0 else VotesOf(es[..|es| - 1]) + es[|es| - 1].total / 100000000
  }

  /** The set keeps more than two thirds of its votes without any one member. */
  ghost predicate SparesAnyone(es: seq<Entry>) {
    es != []
    && forall i :: 0 <= i < |es| ==> VotesOf(es) - es[i].total / 100000000 > VotesOf(es) * 2 / 3
  }

  lemma {:induction false} PowersAdd(es: seq<Entry>)
    ensures SumSeq(Powers(es)) == VotesOf(es)
  {
    if es != [] {
      PowersAdd(es[..|es| - 1]);
      assert Powers(es)[..|es| - 1] == Powers(es[..|es| - 1]);
    }
  }

  lemma AllowedIff(es: seq<Entry>)
    ensures Allowed(es) <==> SparesAnyone(es)
  {
    var ps := Powers(es);
    PowersAdd(es);
    LargestBounds(ps);
    assert forall i :: 0 <= i < |es| ==> es[i].total / 100000000 == ps[i];
    if SparesAnyone(es) {
      var i :| 0 <= i < |ps| && ps[i] == Largest(ps);
      assert VotesOf(es) - es[i].total / 100000000 > VotesOf(es) * 2 / 3;
    }
  }

  /** The set the boundary block would seat without its due rows keeps a quorum
      without any one member: the voting-power floor. */
  ghost predicate FloorClears(t: State, b: Block) {
    var h, r := t.height + 1, BeforeBoundary(t, b);
    IsBoundary(h) && Open(r, h).Ok?
    && SparesAnyone(CommitteeFor(Retire(Recount(Open(r, h).value, h)), h + EPOCH, b.tb))
  }

  /** A validator is auto-retired at boundary b exactly when it was charged at
      b and at b - E, and the next set without the due rows clears the
      floor. */
  lemma RetiredIff(g: State, blocks: seq<Block>, b: nat, v: Key)
    requires FreshStart(g) && IsBoundary(b) && b <= |blocks| && Run(g, blocks[..b]).Ok?
    ensures Run(g, blocks[..b - 1]).Ok?
    ensures var t := Run(g, blocks[..b]).value;
            v in t.validators && t.validators[v].status.AutoRetired?
            <==> ChargedAt(g, blocks, b, v) && b >= 2 * EPOCH && ChargedAt(g, blocks, b - EPOCH, v)
                 && FloorClears(Run(g, blocks[..b - 1]).value, blocks[b - 1])
  {
    hide Inv, ChargedIn, ChargedAt, Tracks, FloorClears, Run, FreshStart, ApplyBlock;
    StartInv(g);
    RunPrefix(g, blocks, b);
    ChargedIs(g, blocks, b, v);
    CounterIsStreak(g, blocks, b - 1, v);
    RunKeeps(g, blocks[..b - 1]);
    LastBoundary(b);
    BlockRetires(Run(g, blocks[..b - 1]).value, blocks[b - 1], v, Streak(g, blocks, b - EPOCH, v));
  }

  // ── a boundary the floor blocks ─────────────────────────────────────

  lemma BlockedCount(u: State, h: nat, tb: Tiebreak)
    requires h >= EPOCH && RuleN(u, h, tb).Ok?
    requires !Allowed(CommitteeFor(Retire(Recount(u, h)), h + EPOCH, tb))
    ensures RuleN(u, h, tb).value == Recount(u, h)
  {
    hide CommitteeFor, Allowed, Recount, BondedKeys;
  }

  lemma BlockedStays(s: State, h: nat, tb: Tiebreak, v: Key)
    requires IsBoundary(h) && RunBoundary(s, h, tb).Ok? && Open(s, h).Ok? && Charged(Open(s, h).value, h, v)
    requires !Allowed(CommitteeFor(Retire(Recount(Open(s, h).value, h)), h + EPOCH, tb))
    ensures v in RunBoundary(s, h, tb).value.validators && Bonded(RunBoundary(s, h, tb).value.validators[v].status)
  {
    hide Open, RuleN, Close, CommitteeFor, Allowed, MeetsBar, Retire, SeatKeys;
    var u := Open(s, h).value;
    BlockedCount(u, h, tb);
    RecountedRow(u, h, v);
    CloseRow(Recount(u, h), h, tb, v);
  }

  /** Over every run: a boundary whose next set would not clear the floor
      retires nobody; whoever it charged stays bonded with its whole streak
      on the counter; and it is retired at the next boundary if that charges
      it too and the floor clears there. */
  lemma FloorDefers(g: State, blocks: seq<Block>, b: nat, v: Key)
    requires FreshStart(g) && IsBoundary(b) && b <= |blocks| && Run(g, blocks[..b]).Ok? && Run(g, blocks[..b - 1]).Ok?
    requires !FloorClears(Run(g, blocks[..b - 1]).value, blocks[b - 1])
    ensures var t := Run(g, blocks[..b]).value;
            && (v in t.validators ==> !t.validators[v].status.AutoRetired?)
            && (ChargedAt(g, blocks, b, v) ==>
                  && v in t.validators && Bonded(t.validators[v].status)
                  && t.validators[v].missed == Streak(g, blocks, b, v) >= 1)
    ensures b + EPOCH <= |blocks| && Run(g, blocks[..b + EPOCH]).Ok? && Run(g, blocks[..b + EPOCH - 1]).Ok?
            && ChargedAt(g, blocks, b, v) && ChargedAt(g, blocks, b + EPOCH, v)
            && FloorClears(Run(g, blocks[..b + EPOCH - 1]).value, blocks[b + EPOCH - 1]) ==>
              var t := Run(g, blocks[..b + EPOCH]).value;
              v in t.validators && t.validators[v].status.AutoRetired?
  {
    hide Inv, FloorClears, Run, FreshStart, ApplyBlock, ChargedIn, ChargedAt;
    RetiredIff(g, blocks, b, v);
    CounterIsStreak(g, blocks, b, v);
    assert EpochStart(b) == b;
    if ChargedAt(g, blocks, b, v) {
      StartInv(g);
      RunPrefix(g, blocks, b);
      RunKeeps(g, blocks[..b - 1]);
      ChargedIs(g, blocks, b, v);
      ChargedStays(Run(g, blocks[..b - 1]).value, blocks[b - 1], v);
    }
    if b + EPOCH <= |blocks| && Run(g, blocks[..b + EPOCH]).Ok? { RetiredIff(g, blocks, b + EPOCH, v); }
  }

  lemma ChargedStays(t: State, b: Block, v: Key)
    requires ApplyBlock(t, b).Ok? && ChargedIn(t, b, t.height + 1, v) && !FloorClears(t, b)
    ensures v in ApplyBlock(t, b).value.validators && Bonded(ApplyBlock(t, b).value.validators[v].status)
  {
    hide RunBoundary, Open, Charged, ApplyItems, Allowed, SparesAnyone, CommitteeFor, Retire, Recount;
    AllowedAfter(BeforeBoundary(t, b), t.height + 1, b.tb);
    BlockedStays(BeforeBoundary(t, b), t.height + 1, b.tb, v);
  }
}
