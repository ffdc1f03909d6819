/** The rooted replay relation: a table that forgets every row when it
    expires refuses exactly what the whole history of applied envelopes
    would, because an envelope past its expiry cannot be in a block at all. */
module Replay {

  const WINDOW := 720

  /** What a block carries: the two ids, the expiry both are bound to, and
      whether the item, once past the guard, executes. */
  datatype Envelope = Envelope(wire: int, intent: int, expiry: nat, executes: bool)

  datatype Row = Row(wire: int, intent: int, expiry: nat)

  function RowOf(e: Envelope): Row { Row(e.wire, e.intent, e.expiry) }

  /** The whole-block expiry rule at height h. */
  predicate InWindow(expiry: nat, h: nat) { expiry != 0 && expiry >= h && expiry - h <= WINDOW }

  predicate BlockInWindow(envs: seq<Envelope>, h: nat) {
    forall i :: 0 <= i < |envs| ==> InWindow(envs[i].expiry, h)
  }

  predicate Clashes(r: Row, e: Envelope) { r.intent == e.intent || r.wire == e.wire }

  /** An intent id, and a wire id, is a hash of an envelope that contains the
      expiry, so two envelopes that share one expire together. */
  predicate Bound(rows: seq<Row>, envs: seq<Envelope>) {
    && (forall i, j :: 0 <= i < |rows| && 0 <= j < |envs| && Clashes(rows[i], envs[j]) ==>
          rows[i].expiry == envs[j].expiry)
  }

  // ── the guard over the whole history ────────────────────────────────

  predicate Seen(rows: seq<Row>, e: Envelope) { exists i :: 0 <= i < |rows| && Clashes(rows[i], e) }

  /** The history after one item: a refused item leaves no row. */
  function Step(history: seq<Row>, e: Envelope): seq<Row> {
    if Seen(history, e) || !e.executes then history else history + [RowOf(e)]
  }

  function Steps(history: seq<Row>, envs: seq<Envelope>): seq<Row> {
    if envs == [] then history else Step(Steps(history, envs[..|envs| - 1]), envs[|envs| - 1])
  }

  /** No intent and no wire id was applied twice. */
  predicate Once(history: seq<Row>) {
    forall i, j :: 0 <= i < j < |history| ==>
      history[i].intent != history[j].intent && history[i].wire != history[j].wire
  }

  lemma {:induction false} StepsOnce(history: seq<Row>, envs: seq<Envelope>)
    requires Once(history)
    ensures Once(Steps(history, envs))
  {
    if envs != [] { StepsOnce(history, envs[..|envs| - 1]); }
  }

  lemma {:induction false} StepsGrow(history: seq<Row>, envs: seq<Envelope>)
    ensures history <= Steps(history, envs)
    ensures forall i :: |history| <= i < |Steps(history, envs)| ==>
              exists j :: 0 <= j < |envs| && Steps(history, envs)[i] == RowOf(envs[j])
  {
    if envs != [] {
      var head, s := envs[..|envs| - 1], Steps(history, envs);
      StepsGrow(history, head);
      forall i | |history| <= i < |s| ensures exists j :: 0 <= j < |envs| && s[i] == RowOf(envs[j]) {
        if i < |Steps(history, head)| {
          var j :| 0 <= j < |head| && Steps(history, head)[i] == RowOf(head[j]);
          assert s[i] == RowOf(envs[j]);
        } else {
          assert s[i] == RowOf(envs[|envs| - 1]);
        }
      }
    }
  }

  /** Nothing is let through that does not execute, and whatever executes is
      let through itself or after something with one of its ids. */
  predicate Exact(log: seq<Row>, envs: seq<Envelope>) {
    && (forall k :: 0 <= k < |log| ==> Executed(envs, log[k]))
    && (forall i :: 0 <= i < |envs| && envs[i].executes ==> Accounted(log, envs[i]))
  }

  predicate Executed(envs: seq<Envelope>, r: Row) {
    exists i :: 0 <= i < |envs| && envs[i].executes && r == RowOf(envs[i])
  }

  predicate Accounted(log: seq<Row>, e: Envelope) {
    exists k :: 0 <= k < |log| && (log[k].intent == e.intent || log[k].wire == e.wire)
  }

  lemma {:induction false} StepsExact(envs: seq<Envelope>)
    ensures Exact(Steps([], envs), envs)
    decreases |envs|
  {
    hide Exact, Once;
    if envs == [] {
      NoneExact();
    } else {
      var n := |envs| - 1;
      StepsExact(envs[..n]);
      StepExact(Steps([], envs[..n]), envs);
    }
  }

  lemma NoneExact()
    ensures Exact([], [])
  {
  }

  lemma StepExact(log: seq<Row>, envs: seq<Envelope>)
    requires envs != [] && Exact(log, envs[..|envs| - 1])
    ensures Exact(Step(log, envs[|envs| - 1]), envs)
  {
    hide Executed, Accounted;
    var n := |envs| - 1;
    var head, e, next := envs[..n], envs[n], Step(log, envs[n]);
    forall k | 0 <= k < |next| ensures Executed(envs, next[k]) {
      if k < |log| {
        assert next[k] == log[k];
        StillExecuted(envs, n, log[k]);
      } else {
        NowExecuted(envs, n);
      }
    }
    forall i | 0 <= i < |envs| && envs[i].executes ensures Accounted(next, envs[i]) {
      if i < n {
        assert head[i] == envs[i];
        StillAccounted(log, next, envs[i]);
      } else {
        NowAccounted(log, e);
      }
    }
  }

  lemma StillExecuted(envs: seq<Envelope>, n: nat, r: Row)
    requires n <= |envs| && Executed(envs[..n], r)
    ensures Executed(envs, r)
  {
    var i :| 0 <= i < n && envs[..n][i].executes && r == RowOf(envs[..n][i]);
    assert envs[i].executes && r == RowOf(envs[i]);
  }

  lemma NowExecuted(envs: seq<Envelope>, n: nat)
    requires n < |envs| && envs[n].executes
    ensures Executed(envs, RowOf(envs[n]))
  {
  }

  lemma StillAccounted(log: seq<Row>, next: seq<Row>, e: Envelope)
    requires log <= next && Accounted(log, e)
    ensures Accounted(next, e)
  {
    var k :| 0 <= k < |log| && (log[k].intent == e.intent || log[k].wire == e.wire);
    assert next[k] == log[k];
  }

  lemma NowAccounted(log: seq<Row>, e: Envelope)
    requires e.executes
    ensures Accounted(Step(log, e), e)
  {
    var next := Step(log, e);
    if Seen(log, e) {
      var k :| 0 <= k < |log| && Clashes(log[k], e);
      assert next[k] == log[k];
    } else {
      assert next[|log|] == RowOf(e);
    }
  }

  // ── the pruned table ────────────────────────────────────────────────

  /** The rows of the history that have not expired after block h. */
  function Live(history: seq<Row>, h: nat): set<Row> {
    set i | 0 <= i < |history| && history[i].expiry > h :: history[i]
  }

  /** An item the block may carry at all is judged alike by the table pruned
      at any earlier height and by the whole history. */
  lemma SameVerdict(history: seq<Row>, rows: set<Row>, h: nat, e: Envelope)
    requires rows == Live(history, h) && e.expiry > h && Bound(history, [e])
    ensures Seen(history, e) <==> exists r :: r in rows && Clashes(r, e)
  {
    if Seen(history, e) {
      var i :| 0 <= i < |history| && Clashes(history[i], e);
      assert Clashes(history[i], [e][0]);
      assert history[i] in rows;
    }
  }

  class ReplayTable {
    var height: nat
    var rows: set<Row>
    ghost var applied: seq<Row>

    /** The table is the unexpired part of everything ever applied. */
    ghost predicate Valid()
      reads this
    {
      && rows == Live(applied, height)
      && Once(applied)
      && (forall r :: r in rows ==> r.expiry - height <= WINDOW)
    }

    constructor ()
      ensures Valid() && applied == []
    {
      height, rows, applied := 0, {}, [];
    }

    /** The guard: the intent query, then the wire query. */
    method Hit(e: Envelope) returns (hit: bool)
      ensures hit <==> exists r :: r in rows && Clashes(r, e)
    {
      hit := exists r :: r in rows && r.intent == e.intent;
      if !hit { hit := exists r :: r in rows && r.wire == e.wire; }
    }

    /** One decided block: the expiry rule for all of it, the items in order,
        then the prune. Returns whether the block was inside the window. */
    method ApplyBlock(envs: seq<Envelope>) returns (ok: bool)
      requires Valid() && Bound(applied, envs) && BoundWithin(envs)
      modifies this
      ensures Valid()
      ensures ok <==> forall i :: 0 <= i < |envs| ==> old(height) + 1 <= envs[i].expiry <= old(height) + 721
      ensures ok ==> height == old(height) + 1 && applied == Steps(old(applied), envs)
      ensures !ok ==> height == old(height) && applied == old(applied) && rows == old(rows)
    {
      hide Live, Once, Bound, BoundWithin, Clashes;
      var h := height + 1;
      for i := 0 to |envs|
        invariant BlockInWindow(envs[..i], h)
      {
        if !InWindow(envs[i].expiry, h) { return false; }
      }
      ghost var before := applied;
      for i := 0 to |envs|
        invariant height == h - 1 && applied == Steps(before, envs[..i]) && rows == Live(applied, h - 1)
      {
        var e := envs[i];
        assert envs[..i + 1][..i] == envs[..i];
        BoundStep(before, envs, i);
        SameVerdict(applied, rows, h - 1, e);
        var hit := Hit(e);
        if !hit && e.executes {
          LiveAdd(applied, h - 1, RowOf(e));
          rows := rows + {RowOf(e)};
          applied := applied + [RowOf(e)];
        }
      }
      assert envs[..|envs|] == envs;
      StepsOnce(before, envs);
      Expiries(before, envs, h);
      rows := set r | r in rows && r.expiry > h;
      LivePrune(applied, h);
      height := h;
      return true;
    }
  }

  predicate BoundWithin(envs: seq<Envelope>) {
    forall i, j :: 0 <= i < j < |envs| && Clashes(RowOf(envs[i]), envs[j]) ==> envs[i].expiry == envs[j].expiry
  }

  lemma BoundStep(history: seq<Row>, envs: seq<Envelope>, i: nat)
    requires i < |envs| && Bound(history, envs) && BoundWithin(envs)
    ensures Bound(Steps(history, envs[..i]), [envs[i]])
  {
    var s := Steps(history, envs[..i]);
    StepsGrow(history, envs[..i]);
    forall k | 0 <= k < |s| && Clashes(s[k], envs[i]) ensures s[k].expiry == envs[i].expiry {
      if k < |history| {
        assert s[k] == history[k];
      } else {
        var j :| 0 <= j < i && s[k] == RowOf(envs[..i][j]);
        assert envs[..i][j] == envs[j];
      }
    }
  }

  lemma LiveAdd(history: seq<Row>, h: nat, r: Row)
    requires r.expiry > h
    ensures Live(history + [r], h) == Live(history, h) + {r}
  {
    var s := history + [r];
    forall x ensures x in Live(s, h) <==> x in Live(history, h) + {r} {
      if x in Live(history, h) {
        var i :| 0 <= i < |history| && history[i].expiry > h && history[i] == x;
        assert s[i] == x;
      }
      assert s[|history|] == r;
    }
  }

  lemma LivePrune(history: seq<Row>, h: nat)
    requires h > 0
    ensures (set r | r in Live(history, h - 1) && r.expiry > h) == Live(history, h)
  {
  }

  /** Every row still live after block h expires within the window. */
  lemma Expiries(history: seq<Row>, envs: seq<Envelope>, h: nat)
    requires h > 0 && BlockInWindow(envs, h)
    requires forall r :: r in Live(history, h - 1) ==> r.expiry - (h - 1) <= WINDOW
    ensures forall r :: r in Live(Steps(history, envs), h) ==> r.expiry - h <= WINDOW
  {
    var s := Steps(history, envs);
    StepsGrow(history, envs);
    forall r | r in Live(s, h) ensures r.expiry - h <= WINDOW {
      var i :| 0 <= i < |s| && s[i].expiry > h && s[i] == r;
      if i < |history| {
        assert history[i] == r && r in Live(history, h - 1);
      } else {
        var j :| 0 <= j < |envs| && s[i] == RowOf(envs[j]);
      }
    }
  }

  // ── whole runs ──────────────────────────────────────────────────────

  function Flatten(blocks: seq<seq<Envelope>>): seq<Envelope> {
    if blocks == [] then [] else Flatten(blocks[..|blocks| - 1]) + blocks[|blocks| - 1]
  }

  lemma {:induction false} StepsConcat(history: seq<Row>, a: seq<Envelope>, b: seq<Envelope>)
    ensures Steps(history, a + b) == Steps(Steps(history, a), b)
    decreases |b|
  {
    if b == [] {
      assert a + b == a;
    } else {
      StepsConcat(history, a, b[..|b| - 1]);
      assert (a + b)[..|a + b| - 1] == a + b[..|b| - 1];
    }
  }

  /** A node that keeps only the pruned table, and the log of what it let
      through. */
  datatype Node = Node(rows: set<Row>, log: seq<Row>)

  ghost function NodeStep(n: Node, e: Envelope): Node {
    if (exists r :: r in n.rows && Clashes(r, e)) || !e.executes then n
    else Node(n.rows + {RowOf(e)}, n.log + [RowOf(e)])
  }

  ghost function NodeSteps(n: Node, envs: seq<Envelope>): Node {
    if envs == [] then n else NodeStep(NodeSteps(n, envs[..|envs| - 1]), envs[|envs| - 1])
  }

  /** Block by block from height 1, pruning after each. */
  ghost function NodeRun(blocks: seq<seq<Envelope>>): Node {
    if blocks == [] then Node({}, [])
    else
      var n := NodeSteps(NodeRun(blocks[..|blocks| - 1]), blocks[|blocks| - 1]);
      n.(rows := set r | r in n.rows && r.expiry > |blocks|)
  }

  /** Every block carries envelopes only from 720 blocks before their expiry up
      to the expiry itself. */
  predicate RunInWindow(blocks: seq<seq<Envelope>>) {
    forall b, i :: 0 <= b < |blocks| && 0 <= i < |blocks[b]| ==> b + 1 <= blocks[b][i].expiry <= b + 721
  }

  lemma {:induction false} NodeBlock(n: Node, h: nat, envs: seq<Envelope>, i: nat)
    requires h > 0 && i <= |envs| && BlockInWindow(envs, h) && n.rows == Live(n.log, h - 1)
    requires Bound(n.log, envs) && BoundWithin(envs)
    ensures var m := NodeSteps(n, envs[..i]); m.log == Steps(n.log, envs[..i]) && m.rows == Live(m.log, h - 1)
    decreases i
  {
    if i > 0 {
      NodeBlock(n, h, envs, i - 1);
      assert envs[..i][..i - 1] == envs[..i - 1];
      var m, e := NodeSteps(n, envs[..i - 1]), envs[i - 1];
      BoundStep(n.log, envs, i - 1);
      SameVerdict(m.log, m.rows, h - 1, e);
      LiveAdd(m.log, h - 1, RowOf(e));
    }
  }

  lemma BoundSplit(a: seq<Envelope>, b: seq<Envelope>)
    requires BoundWithin(a + b)
    ensures BoundWithin(a) && BoundWithin(b) && Bound(Steps([], a), b)
  {
    var s := Steps([], a);
    StepsGrow([], a);
    forall i, j | 0 <= i < j < |a| && Clashes(RowOf(a[i]), a[j]) ensures a[i].expiry == a[j].expiry {
      assert (a + b)[i] == a[i] && (a + b)[j] == a[j];
    }
    forall i, j | 0 <= i < j < |b| && Clashes(RowOf(b[i]), b[j]) ensures b[i].expiry == b[j].expiry {
      assert (a + b)[|a| + i] == b[i] && (a + b)[|a| + j] == b[j];
    }
    forall k, j | 0 <= k < |s| && 0 <= j < |b| && Clashes(s[k], b[j]) ensures s[k].expiry == b[j].expiry {
      var i :| 0 <= i < |a| && s[k] == RowOf(a[i]);
      assert (a + b)[i] == a[i] && (a + b)[|a| + j] == b[j];
    }
  }

  /** Over every run the pruned table lets through exactly what the whole
      history would: no intent and no wire id ever twice, nothing that does not
      execute, and everything that does unless one of its ids was let through;
      and every row it still holds expires within the window. */
  lemma {:induction false} PrunedIsFull(blocks: seq<seq<Envelope>>)
    requires RunInWindow(blocks) && BoundWithin(Flatten(blocks))
    ensures NodeRun(blocks).log == Steps([], Flatten(blocks)) && Once(NodeRun(blocks).log)
    ensures Exact(NodeRun(blocks).log, Flatten(blocks))
    ensures NodeRun(blocks).rows == Live(NodeRun(blocks).log, |blocks|)
    ensures forall r :: r in NodeRun(blocks).rows ==> |blocks| < r.expiry <= |blocks| + 720
  {
    hide Exact;
    StepsOnce([], Flatten(blocks));
    StepsExact(Flatten(blocks));
    if blocks != [] {
      var h := |blocks|;
      var head, last := blocks[..h - 1], blocks[h - 1];
      assert BlockInWindow(last, h);
      assert forall b :: 0 <= b < |head| ==> head[b] == blocks[b];
      BoundSplit(Flatten(head), last);
      PrunedIsFull(head);
      var n := NodeRun(head);
      NodeBlock(n, h, last, |last|);
      assert last[..|last|] == last;
      StepsConcat([], Flatten(head), last);
      LivePrune(NodeSteps(n, last).log, h);
      Expiries(n.log, last, h);
    }
  }
}
