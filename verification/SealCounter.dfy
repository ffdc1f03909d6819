/** The message history's seal counter: two stored copies, reservations before
    the first seal, failures and crashes anywhere. No number is ever used for
    two encryptions under one history key. */
module SealCounter {
  import opened Options

  const MAX_INVOCATIONS := 0x1_0000_0000

  function Value(x: Option<nat>): nat { if x.Some? then x.value else 0 }

  /** What survives a crash (the database record and the copy outside it),
      what does not (the open store's counter), and every number a seal has
      used. */
  datatype Store = Store(database: Option<nat>, copy: Option<nat>, open: bool, counter: nat, used: seq<nat>)

  /** Where a save stops: the copy cannot be written, the k-th seal fails or
      the tab dies there, the transaction aborts, or nowhere. */
  datatype Failure = CopyFails | SealFails(done: nat) | CommitFails | Succeeds

  datatype Step =
    | Open
    | Save(entries: nat, failure: Failure)
    | Crash
    | Erase

  const EMPTY := Store(None, None, false, 0, [])

  function Range(from: nat, n: nat): (r: seq<nat>)
    ensures |r| == n && forall i :: 0 <= i < n ==> r[i] == from + i
  {
    seq(n, i => from + i)
  }

  /** How many of n seals run before the save stops. */
  function Sealed(n: nat, f: Failure): nat {
    match f
    case CopyFails => 0
    case SealFails(k) => if k < n then k else n
    case CommitFails => n
    case Succeeds => n
  }

  function Max(a: nat, b: nat): nat { if a > b then a else b }

  function Apply(s: Store, step: Step): Store {
    match step
    case Open => if s.open then s else s.(open := true, counter := Max(Value(s.database), Value(s.copy)))
    case Crash => s.(open := false, counter := 0)
    case Erase => s.(open := false, counter := 0, database := None)
    case Save(n, f) =>
      if !s.open || s.counter + n > MAX_INVOCATIONS || f.CopyFails? then s
      else
        var t := s.(copy := Some(s.counter + n), counter := s.counter + n,
                    used := s.used + Range(s.counter, Sealed(n, f)));
        if f.Succeeds? then t.(database := Some(s.counter + n)) else t
  }

  function Run(steps: seq<Step>): Store {
    if steps == [] then EMPTY else Apply(Run(steps[..|steps| - 1]), steps[|steps| - 1])
  }

  predicate Distinct(xs: seq<nat>) { forall i, j :: 0 <= i < j < |xs| ==> xs[i] != xs[j] }

  /** Every used number lies below the copy, and the copy is never behind. */
  predicate Safe(s: Store) {
    && Distinct(s.used)
    && (forall i :: 0 <= i < |s.used| ==> s.used[i] < Value(s.copy))
    && Value(s.database) <= Value(s.copy)
    && (s.open ==> s.counter == Value(s.copy))
    && Value(s.copy) <= MAX_INVOCATIONS
  }

  lemma SafeUsed(s: Store)
    requires Safe(s)
    ensures Distinct(s.used)
  {
  }

  lemma ApplySafe(s: Store, step: Step)
    requires Safe(s)
    ensures Safe(Apply(s, step))
    ensures s.used <= Apply(s, step).used
  {
  }

  /** Over every run no seal number is used twice, and the budget of the key
      is kept. */
  lemma {:induction false} NeverReused(steps: seq<Step>)
    ensures Safe(Run(steps)) && Distinct(Run(steps).used)
    ensures |Run(steps).used| <= MAX_INVOCATIONS
  {
    if steps != [] {
      NeverReused(steps[..|steps| - 1]);
      ApplySafe(Run(steps[..|steps| - 1]), steps[|steps| - 1]);
    }
    DistinctBound(Run(steps).used, MAX_INVOCATIONS);
  }

  function Elements(xs: seq<nat>): set<nat> { set x | x in xs }

  /** Distinct numbers below n are at most n. */
  lemma {:induction false} DistinctBound(xs: seq<nat>, n: nat)
    requires Distinct(xs) && forall i :: 0 <= i < |xs| ==> xs[i] < n
    ensures |xs| <= n
  {
    SetOfBelow(Elements(xs), n);
    DistinctSize(xs);
  }

  lemma {:induction false} DistinctSize(xs: seq<nat>)
    requires Distinct(xs)
    ensures |Elements(xs)| == |xs|
  {
    if xs != [] {
      var head := xs[..|xs| - 1];
      DistinctSize(head);
      var last := xs[|xs| - 1];
      assert last !in head;
      assert xs == head + [last];
      assert Elements(xs) == Elements(head) + {last};
    }
  }

  lemma {:induction false} SetOfBelow(s: set<nat>, n: nat)
    requires forall x :: x in s ==> x < n
    ensures |s| <= n
  {
    if n == 0 {
      assert s == {};
    } else {
      SetOfBelow(s - {n - 1}, n - 1);
      if n - 1 in s { assert s == s - {n - 1} + {n - 1}; } else { assert s - {n - 1} == s; }
    }
  }

  /** Either copy alone is enough after a save that went through: with the
      other one lost, opening still starts above every number used. */
  lemma EitherCopySuffices(s: Store)
    requires Safe(s) && !s.open && Value(s.database) == Value(s.copy)
    ensures var t := Apply(s.(copy := None), Open); forall i :: 0 <= i < |t.used| ==> t.used[i] < t.counter
    ensures var t := Apply(s.(database := None), Open); forall i :: 0 <= i < |t.used| ==> t.used[i] < t.counter
  {
  }

  /** Why both copies: with the database record alone, a save whose seals ran
      but whose transaction aborted is forgotten by the next open. */
  function ApplyWithoutCopy(s: Store, step: Step): Store {
    Apply(s, step).(copy := None)
  }

  lemma DatabaseAloneReuses()
    ensures var a := ApplyWithoutCopy(EMPTY, Open);
            var b := ApplyWithoutCopy(a, Save(1, CommitFails));
            var c := ApplyWithoutCopy(ApplyWithoutCopy(b, Crash), Open);
            var d := ApplyWithoutCopy(c, Save(1, CommitFails));
            !Distinct(d.used)
  {
    var a := ApplyWithoutCopy(EMPTY, Open);
    var b := ApplyWithoutCopy(a, Save(1, CommitFails));
    var c := ApplyWithoutCopy(ApplyWithoutCopy(b, Crash), Open);
    var d := ApplyWithoutCopy(c, Save(1, CommitFails));
    assert b.used == [0];
    assert d.used == [0, 0];
    assert d.used[0] == d.used[1];
  }

  /** The store itself. */
  class HistoryStore {
    var database: Option<nat>
    var copy: Option<nat>
    var open: bool
    var counter: nat
    ghost var used: seq<nat>

    ghost function Abs(): Store
      reads this
    {
      Store(database, copy, open, counter, used)
    }

    /** No number was used twice, and the copy outside the database is above
        every number used. */
    ghost predicate Valid()
      reads this
    {
      Safe(Abs())
    }

    constructor ()
      ensures Abs() == EMPTY && Valid()
    {
      database, copy, open, counter, used := None, None, false, 0, [];
    }

    /** Opening changes nothing stored, and the next number is above every
        number any seal has used. */
    method OpenStore()
      requires Valid()
      modifies this
      ensures Valid() && open && used == old(used) && database == old(database) && copy == old(copy)
      ensures !old(open) ==> counter >= Value(database) && counter >= Value(copy)
      ensures forall i :: 0 <= i < |used| ==> used[i] < counter
      ensures Abs() == Apply(old(Abs()), Open)
    {
      if open { return; }
      var d, c := Value(database), Value(copy);
      counter := if d > c then d else c;
      open := true;
    }

    /** One reservation, then the seals, then one transaction. */
    method SaveAll(entries: nat, failure: Failure) returns (ok: bool)
      requires Valid()
      modifies this
      ensures Valid() && Distinct(used) && old(used) <= used
      ensures ok ==> |used| == |old(used)| + entries && counter == old(counter) + entries && database == Some(counter)
      ensures forall i :: |old(used)| <= i < |used| ==> old(counter) <= used[i] < counter
      ensures Abs() == Apply(old(Abs()), Save(entries, failure))
      ensures ok <==>
        old(open) && old(counter) + entries <= MAX_INVOCATIONS && failure.Succeeds?
    {
      ApplySafe(Abs(), Save(entries, failure));
      SafeUsed(Apply(Abs(), Save(entries, failure)));
      hide Safe, Distinct;
      if !open || counter + entries > MAX_INVOCATIONS { return false; }
      var reserved := counter + entries;
      if failure.CopyFails? { return false; }
      copy := Some(reserved);
      var at := counter;
      counter := reserved;
      var left := entries;
      while left > 0 && !(failure.SealFails? && failure.done == entries - left)
        invariant 0 <= left <= entries && at == old(counter) + (entries - left)
        invariant failure.SealFails? ==> entries - left <= failure.done
        invariant used == old(used) + Range(old(counter), entries - left)
        invariant counter == reserved && copy == Some(reserved) && open && database == old(database)
      {
        used := used + [at];
        assert used == old(used) + Range(old(counter), entries - left + 1);
        at := at + 1;
        left := left - 1;
      }
      if failure.SealFails? || failure.CommitFails? { return false; }
      database := Some(reserved);
      return true;
    }

    /** The database record is gone, the store is closed, and whatever opens
        it next starts above every number used. */
    method EraseHistory()
      requires Valid()
      modifies this
      ensures Valid() && !open && database == None && used == old(used)
      ensures forall i :: 0 <= i < |used| ==> used[i] < Apply(Abs(), Open).counter
      ensures Abs() == Apply(old(Abs()), Erase)
    {
      open, counter, database := false, 0, None;
    }
  }
}
