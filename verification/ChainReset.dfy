/** When the explorer throws its index away: a foreign chain id counts only
    once two different servers have named it in an unbroken streak. */
module ChainReset {
  import opened Options

  datatype Verdict = Same | Pending | Confirmed

  /** One poll that reached a server. */
  datatype Observation = Observation(chain: nat, server: nat)

  /** The servers of the unbroken run of polls that ends the history, all of
      which named one and the same foreign chain. */
  function Streak(history: seq<Observation>, reference: nat): (r: seq<nat>)
    ensures |r| <= |history|
  {
    if history == [] || history[|history| - 1].chain == reference then [] else
      var n := |history| - 1;
      var earlier := if n > 0 && history[n - 1].chain == history[n].chain then Streak(history[..n], reference) else [];
      earlier + [history[n].server]
  }

  predicate TwoServers(servers: seq<nat>) {
    exists i, j :: 0 <= i < j < |servers| && servers[i] != servers[j]
  }

  /** The longest run: its polls are the last ones, they agree on a foreign
      chain, and the poll before them does not. */
  predicate LastRun(history: seq<Observation>, reference: nat, servers: seq<nat>) {
    var k := |history| - |servers|;
    && 0 <= k
    && (forall i :: k <= i < |history| ==>
          && history[i].chain == history[|history| - 1].chain != reference
          && servers[i - k] == history[i].server)
    && (k > 0 && history[|history| - 1].chain != reference ==>
          history[k - 1].chain != history[|history| - 1].chain)
  }

  lemma RunExtends(history: seq<Observation>, reference: nat, servers: seq<nat>)
    requires |history| > 1 && LastRun(history[..|history| - 1], reference, servers)
    requires history[|history| - 2].chain == history[|history| - 1].chain != reference
    ensures LastRun(history, reference, servers + [history[|history| - 1].server])
  {
    var n, k := |history| - 1, |history| - 1 - |servers|;
    var head, all := history[..n], servers + [history[n].server];
    assert head[n - 1] == history[n - 1];
    forall i | k <= i < |history|
      ensures history[i].chain == history[n].chain && all[i - k] == history[i].server
    {
      if i < n { assert head[i] == history[i]; }
    }
    if k > 0 { assert head[k - 1] == history[k - 1]; }
  }

  /** The streak is that run. */
  lemma {:induction false} StreakMeaning(history: seq<Observation>, reference: nat)
    ensures LastRun(history, reference, Streak(history, reference))
  {
    if history != [] && history[|history| - 1].chain != reference {
      var n := |history| - 1;
      if n > 0 && history[n - 1].chain == history[n].chain {
        hide LastRun;
        StreakMeaning(history[..n], reference);
        RunExtends(history, reference, Streak(history[..n], reference));
      } else {
        assert Streak(history, reference) == [] + [history[n].server];
      }
    }
  }

  /** Two slots remember the first server of the streak and the first other
      one. */
  predicate Seen(run: seq<nat>, polls: nat, seen0: Option<nat>, seen1: Option<nat>) {
    && run != [] && polls == |run| && seen0 == Some(run[0])
    && (seen1.None? ==> forall i :: 0 <= i < |run| ==> run[i] == run[0])
    && (seen1.Some? ==> seen1.value != run[0] && exists i :: 0 <= i < |run| && run[i] == seen1.value)
  }

  lemma SeenTwo(run: seq<nat>, polls: nat, seen0: Option<nat>, seen1: Option<nat>)
    requires Seen(run, polls, seen0, seen1)
    ensures TwoServers(run) <==> seen1.Some?
  {
    if seen1.Some? {
      var i :| 0 <= i < |run| && run[i] == seen1.value;
      assert run[0] != run[i];
    }
  }

  lemma SeenNext(run: seq<nat>, polls: nat, seen0: Option<nat>, seen1: Option<nat>, server: nat)
    requires Seen(run, polls, seen0, seen1)
    ensures Seen(run + [server], polls + 1, seen0,
                 if seen0 != Some(server) && seen1.None? then Some(server) else seen1)
  {
    var next := run + [server];
    if seen1.Some? {
      var i :| 0 <= i < |run| && run[i] == seen1.value;
      assert next[i] == seen1.value;
    } else if seen0 != Some(server) {
      assert next[|run|] == server;
    }
  }

  lemma StreakNext(history: seq<Observation>, reference: nat, o: Observation)
    requires o.chain != reference
    ensures Streak(history + [o], reference) ==
      (if history != [] && history[|history| - 1].chain == o.chain then Streak(history, reference) else []) + [o.server]
  {
    assert (history + [o])[..|history|] == history;
  }

  lemma StreakBroken(history: seq<Observation>, reference: nat, o: Observation)
    requires o.chain == reference
    ensures Streak(history + [o], reference) == []
    ensures !TwoServers([])
  {
  }

  lemma SeenOne(server: nat)
    ensures Seen([server], 1, Some(server), None)
    ensures !TwoServers([server])
  {
  }

  class Tracker {
    var reference: Option<nat>
    var candidate: Option<nat>
    var seen0: Option<nat>
    var seen1: Option<nat>
    var polls: nat
    ghost var history: seq<Observation>

    constructor (stored: Option<nat>)
      ensures Valid() && reference == stored && history == []
    {
      reference, candidate, seen0, seen1, polls, history := stored, None, None, None, 0, [];
    }

    ghost function Run(): seq<nat>
      reads this
    {
      if reference.None? then [] else Streak(history, reference.value)
    }

    ghost predicate Valid()
      reads this
    {
      && (reference.None? ==> history == [])
      && (candidate.Some? <==> Run() != [])
      && (candidate.Some? ==> history != [] && candidate.value == history[|history| - 1].chain)
      && (candidate.Some? ==> Seen(Run(), polls, seen0, seen1))
    }

    /** The verdict on one poll. The first poll of a fresh index only sets
        the reference. */
    method Feed(chain: nat, server: nat) returns (v: Verdict)
      requires Valid()
      modifies this
      ensures Valid()
      ensures old(reference).None? ==> v == Same && reference == Some(chain) && history == []
      ensures old(reference).Some? ==>
        && reference == old(reference)
        && history == old(history) + [Observation(chain, server)]
        && (v == Same <==> chain == reference.value)
        && (v == Confirmed <==> TwoServers(Run()))
        && (v != Same ==> candidate == Some(chain))
    {
      hide Streak, Seen, TwoServers;
      if reference.None? {
        reference, candidate, seen0, seen1, polls := Some(chain), None, None, None, 0;
        return Same;
      }
      ghost var run := Run();
      ghost var o := Observation(chain, server);
      history := history + [o];
      if chain == reference.value {
        StreakBroken(old(history), reference.value, o);
        candidate, seen0, seen1, polls := None, None, None, 0;
        return Same;
      }
      StreakNext(old(history), reference.value, o);
      if candidate != Some(chain) {
        candidate, seen0, seen1, polls := Some(chain), Some(server), None, 1;
        SeenOne(server);
        assert Run() == [server];
        return Pending;
      }
      SeenNext(run, polls, seen0, seen1, server);
      polls := polls + 1;
      if seen0 != Some(server) && seen1.None? { seen1 := Some(server); }
      SeenTwo(Run(), polls, seen0, seen1);
      return if polls >= 2 && seen1.Some? then Confirmed else Pending;
    }

    /** The index was replaced: the candidate is the new reference. */
    method Adopt()
      requires Valid() && candidate.Some?
      modifies this
      ensures Valid() && reference == old(candidate) && history == []
    {
      reference, candidate, seen0, seen1, polls, history := candidate, None, None, None, 0, [];
    }

    /** The first reference could not be stored: it is forgotten again. */
    method Forget()
      requires Valid() && history == []
      modifies this
      ensures Valid() && reference == None && history == []
    {
      reference, candidate, seen0, seen1, polls := None, None, None, None, 0;
    }
  }
}
