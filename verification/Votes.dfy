/** The participation bar by the votes: over every run from genesis, a
    validator meets it at a boundary exactly when its COMMIT votes in the
    epoch's 720 blocks are at least 360 and one is in the last 120. */
module Votes {
  import opened Ledger
  import opened Settlement
  import opened Committee
  import opened Boundary
  import opened BoundaryProofs
  import opened Runs
  import opened QuorumEpoch

  /** How often v committed in one block's vote list. */
  function Commits(votes: seq<Vote>, v: Key): nat {
    if votes == [] then 0
    else (if votes[0] == Vote(v, true) then 1 else 0) + Commits(votes[1..], v)
  }

  /** How often in blocks[a..b]; blocks[i] is the block of height i + 1. */
  function CommitsIn(blocks: seq<Block>, a: nat, b: nat, v: Key): nat
    requires a <= b <= |blocks|
    decreases b - a
  {
    if a == b then 0 else CommitsIn(blocks, a, b - 1, v) + Commits(blocks[b - 1].votes, v)
  }

  // ── one block ───────────────────────────────────────────────────────

  lemma {:induction false} CommitsAdd(votes: seq<Vote>, w: Vote, v: Key)
    ensures Commits(votes + [w], v) == Commits(votes, v) + if w == Vote(v, true) then 1 else 0
    decreases |votes|
  {
    if votes == [] {
      assert votes + [w] == [w] && [w][1..] == [];
    } else {
      CommitsAdd(votes[1..], w, v);
      assert (votes + [w])[1..] == votes[1..] + [w];
    }
  }

  function SignedBy(att: map<Key, Attendance>, v: Key): nat { if v in att then att[v].signed else 0 }

  /** One list of votes: every commit counts once, and only commits do. */
  lemma {:induction false} CreditIs(att: map<Key, Attendance>, h: nat, votes: seq<Vote>, v: Key)
    requires h > 0
    ensures var t, n := Credit(att, h, votes), Commits(votes, v);
            && SignedBy(t, v) == SignedBy(att, v) + n
            && (n == 0 ==> (v in t <==> v in att) && (v in att ==> t[v] == att[v]))
            && (n > 0 ==> v in t && t[v].last == h - 1)
    decreases |votes|
  {
    if votes != [] {
      var n := |votes| - 1;
      CreditIs(att, h, votes[..n], v);
      CommitsAdd(votes[..n], votes[n], v);
      assert votes == votes[..n] + [votes[n]];
    }
  }

  // ── runs ────────────────────────────────────────────────────────────

  /** The table, after n blocks, counts the commits since block a, and
      remembers where the last one ever was. */
  ghost predicate Counts(att: map<Key, Attendance>, blocks: seq<Block>, a: nat, n: nat, v: Key)
    requires a <= n <= |blocks|
  {
    && SignedBy(att, v) == CommitsIn(blocks, a, n, v)
    && (v in att ==> att[v].last < n && Commits(blocks[att[v].last].votes, v) > 0)
    && (forall i :: 0 <= i < n && (v in att ==> att[v].last < i) ==> Commits(blocks[i].votes, v) == 0)
  }

  lemma CountsNext(att: map<Key, Attendance>, blocks: seq<Block>, a: nat, n: nat, v: Key)
    requires a <= n < |blocks| && Counts(att, blocks, a, n, v)
    ensures Counts(Credit(att, n + 1, blocks[n].votes), blocks, a, n + 1, v)
  {
    hide Credit, Commits;
    CreditIs(att, n + 1, blocks[n].votes, v);
  }

  lemma CountsReset(att: map<Key, Attendance>, reset: map<Key, Attendance>, blocks: seq<Block>, a: nat, n: nat, v: Key)
    requires a <= n <= |blocks| && Counts(att, blocks, a, n, v)
    requires (v in reset <==> v in att) && (v in att ==> reset[v] == Attendance(0, att[v].last))
    ensures Counts(reset, blocks, n, n, v)
  {
    hide Commits;
  }

  lemma RuleNAttendance(s: State, h: nat, tb: Tiebreak)
    requires h >= EPOCH && RuleN(s, h, tb).Ok?
    ensures RuleN(s, h, tb).value.attendance == s.attendance
  {
    hide CommitteeFor, Charged, Due, Allowed, BondedKeys;
  }

  lemma CloseAttendance(s: State, h: nat, tb: Tiebreak, v: Key)
    requires h >= EPOCH && Close(s, h, tb).Ok?
    ensures var t := Close(s, h, tb).value.attendance;
            (v in t <==> v in s.attendance) && (v in t ==> t[v] == Attendance(0, s.attendance[v].last))
  {
    hide CommitteeFor, LiveCopy, SeatKeys;
  }

  lemma BoundaryAttendance(s: State, h: nat, tb: Tiebreak, v: Key)
    requires IsBoundary(h) && RunBoundary(s, h, tb).Ok?
    ensures var t := RunBoundary(s, h, tb).value.attendance;
            (v in t <==> v in s.attendance) && (v in t ==> t[v] == Attendance(0, s.attendance[v].last))
  {
    hide Open, RuleN, Close;
    OpenAttendance(s, h);
    RuleNAttendance(Open(s, h).value, h, tb);
    CloseAttendance(RuleN(Open(s, h).value, h, tb).value, h, tb, v);
  }

  lemma BeforeCounts(s: State, blocks: seq<Block>, a: nat, n: nat, v: Key)
    requires a <= n < |blocks| && s.height == n && Counts(s.attendance, blocks, a, n, v)
    ensures Counts(BeforeBoundary(s, blocks[n]).attendance, blocks, a, n + 1, v)
  {
    hide Credit, Counts, BeforeBoundary;
    BlockTables(s, blocks[n]);
    CountsNext(s.attendance, blocks, a, n, v);
  }

  lemma BlockCounts(s: State, blocks: seq<Block>, a: nat, n: nat, v: Key)
    requires a <= n < |blocks| && s.height == n && ApplyBlock(s, blocks[n]).Ok? && Counts(s.attendance, blocks, a, n, v)
    ensures Counts(ApplyBlock(s, blocks[n]).value.attendance, blocks, if IsBoundary(n + 1) then n + 1 else a, n + 1, v)
    ensures ApplyBlock(s, blocks[n]).value.height == n + 1
  {
    hide RunBoundary, Credit, Counts, BeforeBoundary;
    var u := BeforeBoundary(s, blocks[n]);
    BlockTables(s, blocks[n]);
    BeforeCounts(s, blocks, a, n, v);
    if IsBoundary(n + 1) {
      BoundaryAttendance(u, n + 1, blocks[n].tb, v);
      CountsReset(u.attendance, ApplyBlock(s, blocks[n]).value.attendance, blocks, a, n + 1, v);
    }
  }

  ghost predicate NobodyVoted(g: State) { g.height == 0 && g.attendance == map[] }

  lemma StartCounts(g: State, blocks: seq<Block>, v: Key)
    requires NobodyVoted(g)
    ensures Counts(g.attendance, blocks, 0, 0, v)
  {
  }

  lemma PrefixRun(g: State, blocks: seq<Block>, n: nat)
    requires 0 < n <= |blocks| && Run(g, blocks[..n]).Ok?
    ensures Run(g, blocks[..n - 1]).Ok?
    ensures ApplyBlock(Run(g, blocks[..n - 1]).value, blocks[n - 1]) == Run(g, blocks[..n])
  {
    hide ApplyBlock;
    assert blocks[..n][..n - 1] == blocks[..n - 1];
  }

  lemma EpochOf(n: nat)
    ensures EpochStart(n) <= n
    ensures EpochStart(n + 1) == if IsBoundary(n + 1) then n + 1 else EpochStart(n)
  {
  }

  lemma {:induction false} RunCounts(g: State, blocks: seq<Block>, n: nat, v: Key)
    requires NobodyVoted(g) && n <= |blocks| && Run(g, blocks[..n]).Ok?
    ensures EpochStart(n) <= n && Run(g, blocks[..n]).value.height == n
    ensures Counts(Run(g, blocks[..n]).value.attendance, blocks, EpochStart(n), n, v)
    decreases n
  {
    hide ApplyBlock, Counts, EpochStart, IsBoundary;
    EpochOf(n);
    if n == 0 {
      assert blocks[..0] == [];
      StartCounts(g, blocks, v);
    } else {
      hide Run;
      PrefixRun(g, blocks, n);
      RunCounts(g, blocks, n - 1, v);
      EpochOf(n - 1);
      BlockCounts(Run(g, blocks[..n - 1]).value, blocks, EpochStart(n - 1), n - 1, v);
    }
  }

  // ── the bar ─────────────────────────────────────────────────────────

  /** Fewer than 360 commits in the epoch that ends with block b, or none in
      its last 120 blocks. */
  predicate MissedEpoch(blocks: seq<Block>, b: nat, v: Key)
    requires 720 <= b <= |blocks|
  {
    2 * CommitsIn(blocks, b - 720, b, v) < 720
    || forall i :: b - 120 <= i < b ==> Commits(blocks[i].votes, v) == 0
  }

  lemma BarByVotes(att: map<Key, Attendance>, blocks: seq<Block>, b: nat, v: Key)
    requires 720 <= b <= |blocks| && Counts(att, blocks, b - 720, b, v)
    ensures MeetsBar(att, v, b) <==> !MissedEpoch(blocks, b, v)
  {
    hide Commits, CommitsIn;
  }

  /** At every boundary of every run from genesis. */
  lemma MeetsBarIff(g: State, blocks: seq<Block>, b: nat, v: Key)
    requires NobodyVoted(g) && IsBoundary(b) && b <= |blocks| && Run(g, blocks[..b - 1]).Ok?
    ensures MeetsBar(BeforeBoundary(Run(g, blocks[..b - 1]).value, blocks[b - 1]).attendance, v, b)
       <==> !MissedEpoch(blocks, b, v)
  {
    hide ApplyBlock, Run, Counts, BeforeBoundary, MeetsBar, MissedEpoch;
    RunCounts(g, blocks, b - 1, v);
    LastBoundary(b);
    var s := Run(g, blocks[..b - 1]).value;
    BeforeCounts(s, blocks, EpochStart(b - 1), b - 1, v);
    BarByVotes(BeforeBoundary(s, blocks[b - 1]).attendance, blocks, b, v);
  }
}
