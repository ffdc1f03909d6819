/** A saved wallet's NODUS payments: records written before anything leaves
    the browser, coins held until a scan shows the chain past the expiry, and
    resends that reuse the same coins. No interleaving of answers, losses,
    reloads, scans and blocks applies a payment twice, provided a resend with
    other coins waits for every attempt to expire and nobody makes the spent
    coins of an unsettled payment again; both provisos are exact. */
module Wallet {
  import CoinSelect
  import opened Options

  datatype Status = Pending | Unknown | Confirmed | Expired

  predicate Terminal(s: Status) { s.Confirmed? || s.Expired? }

  /** The signed bytes: kept in memory, at a node whose answer is awaited, or
      forgotten. */
  datatype Bytes = Kept | Asked | Gone

  /** One attempt: the payment it is for, the coins it spends and the largest
      of them, and the expiry block. */
  datatype Record = Record(payment: int, inputs: set<int>, largest: int, expiry: nat, status: Status, bytes: Bytes)

  datatype Answer = Accepted | Busy | Failed

  /** `amounts` is what each coin id was last made with, `live` the ids that
      are unspent. Attempts are numbered by their record: `sent` reached some
      node, `applied` maps an attempt to its block. */
  datatype World = World(height: nat, amounts: map<int, nat>, live: set<int>, sent: set<nat>,
                         applied: map<nat, nat>, records: seq<Record>)

  datatype Step =
    | Make(coin: int, amount: nat)
    | Pay(payment: int, coins: set<int>, inputs: set<int>, largest: int, expiry: nat)
    | Resend(of: nat, coins: set<int>, inputs: set<int>, largest: int, expiry: nat)
    | Submit(i: nat, forwarded: bool)
    | Reply(i: nat, answer: Answer)
    | Reload
    | Scan(i: nat, tip: nat)
    | NextBlock
    | Include(i: nat)

  const START := World(1, map[], {}, {}, map[], [])

  /** The coins no new payment may use. */
  function Locked(rs: seq<Record>): set<int> {
    if rs == [] then {}
    else Locked(rs[..|rs| - 1]) + (if rs[|rs| - 1].status.Expired? then {} else rs[|rs| - 1].inputs)
  }

  /** The first coin of the builder's order: largest amount, then least id. */
  predicate IsLargest(amounts: map<int, nat>, coins: set<int>, c: int) {
    && coins <= amounts.Keys && c in coins
    && forall d :: d in coins && d != c ==> amounts[d] < amounts[c] || (amounts[d] == amounts[c] && c < d)
  }

  /** What the builder makes of the coins it is given: some of them, the
      largest among them. */
  predicate Built(w: World, coins: set<int>, inputs: set<int>, largest: int) {
    inputs <= coins && largest in inputs && IsLargest(w.amounts, coins, largest)
  }

  function Attempt(payment: int, inputs: set<int>, largest: int, expiry: nat): Record {
    Record(payment, inputs, largest, expiry, Pending, Kept)
  }

  /** What a scan up to block `tip` of an honest node says. */
  function Scanned(w: World, i: nat, tip: nat): Status
    requires i < |w.records|
  {
    if i in w.applied && w.applied[i] <= tip then Confirmed
    else if tip > w.records[i].expiry then Expired
    else Pending
  }

  /** The record when the answer comes; it may have become final meanwhile. */
  function Answered(r: Record, a: Answer): Record {
    if Terminal(r.status) then r.(bytes := Gone)
    else match a
      case Accepted => r.(bytes := Gone)
      case Busy => r.(bytes := Kept)
      case Failed => r.(bytes := Gone, status := Unknown)
  }

  function Forgotten(rs: seq<Record>): (r: seq<Record>)
    ensures |r| == |rs| && forall i :: 0 <= i < |r| ==> r[i] == rs[i].(bytes := Gone)
  {
    seq(|rs|, i requires 0 <= i < |rs| => rs[i].(bytes := Gone))
  }

  /** Which coins a resend of one record may be built from: any free ones once
      it has expired, otherwise exactly its own, all still listed. */
  predicate MayUse(w: World, r: Record, coins: set<int>) {
    coins <= w.live && if r.status.Expired? then coins !! Locked(w.records) else coins == r.inputs
  }

  predicate Allowed(w: World, step: Step) {
    match step
    case Make(c, _) => c !in w.live
    case Pay(p, coins, inputs, largest, _) =>
      && Built(w, coins, inputs, largest) && coins <= w.live && coins !! Locked(w.records)
      && forall j :: 0 <= j < |w.records| ==> w.records[j].payment != p
    case Resend(i, coins, inputs, largest, _) =>
      && i < |w.records| && !w.records[i].status.Confirmed?
      && Built(w, coins, inputs, largest) && MayUse(w, w.records[i], coins)
    case Submit(i, _) => i < |w.records| && w.records[i].bytes.Kept? && !Terminal(w.records[i].status)
    case Reply(i, a) =>
      && i < |w.records| && w.records[i].bytes.Asked?
      && (a.Accepted? ==> i in w.sent) && (a.Busy? ==> i !in w.sent)
    case Reload => true
    case Scan(i, tip) => i < |w.records| && !Terminal(w.records[i].status) && tip <= w.height
    case NextBlock => true
    case Include(i) =>
      && i < |w.records| && i in w.sent && i !in w.applied
      && w.height <= w.records[i].expiry && w.records[i].inputs <= w.live
  }

  function Take(w: World, step: Step): World
    requires Allowed(w, step)
  {
    match step
    case Make(c, a) => w.(amounts := w.amounts[c := a], live := w.live + {c})
    case Pay(p, _, inputs, largest, expiry) => w.(records := w.records + [Attempt(p, inputs, largest, expiry)])
    case Resend(i, _, inputs, largest, expiry) =>
      w.(records := w.records + [Attempt(w.records[i].payment, inputs, largest, expiry)])
    case Submit(i, forwarded) =>
      w.(records := w.records[i := w.records[i].(bytes := Asked)], sent := if forwarded then w.sent + {i} else w.sent)
    case Reply(i, a) => w.(records := w.records[i := Answered(w.records[i], a)])
    case Reload => w.(records := Forgotten(w.records))
    case Scan(i, tip) => w.(records := w.records[i := w.records[i].(status := Scanned(w, i, tip))])
    case NextBlock => w.(height := w.height + 1)
    case Include(i) => w.(applied := w.applied[i := w.height], live := w.live - w.records[i].inputs)
  }

  // ── the two provisos ────────────────────────────────────────────────

  /** Every attempt of the payment has expired. */
  predicate NoneOpen(rs: seq<Record>, payment: int) {
    forall j :: 0 <= j < |rs| && rs[j].payment == payment ==> rs[j].status.Expired?
  }

  /** A resend with other coins looks at every attempt of its payment first. */
  predicate Careful(w: World, step: Step) {
    step.Resend? && step.of < |w.records| && w.records[step.of].status.Expired? ==>
      NoneOpen(w.records, w.records[step.of].payment)
  }

  predicate PaidFor(w: World, payment: int) {
    exists i :: i in w.applied && i < |w.records| && w.records[i].payment == payment
  }

  /** Making the coin leaves some record of a payment already made unsettled
      and with all of its coins unspent. */
  predicate Revives(w: World, coin: int) {
    exists j :: 0 <= j < |w.records| && PaidFor(w, w.records[j].payment) && !Terminal(w.records[j].status)
      && w.records[j].inputs <= w.live + {coin}
  }

  predicate Heeded(w: World, step: Step) { Careful(w, step) && (step.Make? ==> !Revives(w, step.coin)) }

  // ── runs ────────────────────────────────────────────────────────────

  /** The world a sequence of steps leads to, if every one is allowed. */
  function From(w: World, steps: seq<Step>): Option<World> {
    if steps == [] then Some(w)
    else
      var before, last := From(w, steps[..|steps| - 1]), steps[|steps| - 1];
      if before.None? || !Allowed(before.value, last) then None else Some(Take(before.value, last))
  }

  function Run(steps: seq<Step>): Option<World> { From(START, steps) }

  /** Every step is allowed and heeds the provisos in the world it meets. */
  predicate Good(w: World, steps: seq<Step>) {
    From(w, steps).Some? &&
    (steps == [] ||
     var n := |steps| - 1;
     Good(w, steps[..n]) && Heeded(From(w, steps[..n]).value, steps[n]))
  }

  /** No payment has two applied envelopes. */
  predicate AtMostOnce(w: World) {
    forall i, j :: i in w.applied && j in w.applied && i != j && i < |w.records| && j < |w.records| ==>
      w.records[i].payment != w.records[j].payment
  }

  // ── the invariant ───────────────────────────────────────────────────

  /** Two records that no scan has ended. */
  predicate BothOpen(a: Record, b: Record) { !a.status.Expired? && !b.status.Expired? }

  /** Open records of different payments share no coin. */
  predicate Apart(rs: seq<Record>) {
    forall i, j :: 0 <= i < |rs| && 0 <= j < |rs| && BothOpen(rs[i], rs[j]) && rs[i].payment != rs[j].payment ==>
      rs[i].inputs !! rs[j].inputs
  }

  /** Until a payment is made its open attempts are unspent ... */
  predicate Unspent(w: World) {
    forall i :: 0 <= i < |w.records| && !w.records[i].status.Expired? && !PaidFor(w, w.records[i].payment) ==>
      w.records[i].inputs <= w.live && IsLargest(w.amounts, w.records[i].inputs, w.records[i].largest)
  }

  predicate Rivals(a: Record, b: Record) { BothOpen(a, b) && a.payment == b.payment }

  /** ... and share their largest coin. */
  predicate Conflict(w: World) {
    forall i, j :: 0 <= i < |w.records| && 0 <= j < |w.records| && Rivals(w.records[i], w.records[j]) ==>
      PaidFor(w, w.records[i].payment) || w.records[i].largest == w.records[j].largest
  }

  /** Once it is made, every unsettled attempt misses a coin. */
  predicate Blocked(w: World) {
    forall j :: 0 <= j < |w.records| && PaidFor(w, w.records[j].payment) && !Terminal(w.records[j].status) ==>
      !(w.records[j].inputs <= w.live)
  }

  predicate Honest(w: World) {
    && w.live <= w.amounts.Keys
    && (forall i :: i in w.applied ==> i < |w.records| && w.applied[i] <= w.records[i].expiry)
    && (forall i :: 0 <= i < |w.records| ==>
          && w.records[i].largest in w.records[i].inputs
          && (w.records[i].status.Expired? ==> i !in w.applied && w.height > w.records[i].expiry)
          && (w.records[i].status.Confirmed? ==> i in w.applied))
  }

  predicate Safe(w: World) { Honest(w) && Apart(w.records) && Unspent(w) && Conflict(w) && Blocked(w) && AtMostOnce(w) }

  // ── steps keep it ───────────────────────────────────────────────────

  lemma MakeSafe(w: World, c: int, a: nat)
    requires Safe(w) && c !in w.live && !Revives(w, c)
    ensures Safe(Take(w, Make(c, a)))
  {
    var v := Take(w, Make(c, a));
    assert forall p :: PaidFor(v, p) <==> PaidFor(w, p);
  }

  /** Records whose statuses and bytes moved. */
  ghost predicate Moved(w: World, v: World) {
    && v == w.(height := v.height, sent := v.sent, records := v.records) && v.height >= w.height
    && |v.records| == |w.records|
    && forall i :: 0 <= i < |w.records| ==>
         && v.records[i] == w.records[i].(status := v.records[i].status, bytes := v.records[i].bytes)
         && (Terminal(w.records[i].status) ==> v.records[i].status == w.records[i].status)
         && (v.records[i].status.Expired? ==> i !in w.applied && v.height > w.records[i].expiry)
         && (v.records[i].status.Confirmed? ==> i in w.applied)
  }

  lemma MovedConflict(w: World, v: World)
    requires Moved(w, v) && Conflict(w)
    ensures Conflict(v)
  {
    SamePaid(w, v);
    hide PaidFor;
    forall i, j | 0 <= i < |v.records| && 0 <= j < |v.records| && Rivals(v.records[i], v.records[j])
      ensures PaidFor(v, v.records[i].payment) || v.records[i].largest == v.records[j].largest
    {
      assert Rivals(w.records[i], w.records[j]);
    }
  }

  lemma MovedApart(w: World, v: World)
    requires Moved(w, v) && Apart(w.records)
    ensures Apart(v.records)
  {
    forall i, j | 0 <= i < |v.records| && 0 <= j < |v.records| && BothOpen(v.records[i], v.records[j])
                  && v.records[i].payment != v.records[j].payment
      ensures v.records[i].inputs !! v.records[j].inputs
    {
      assert BothOpen(w.records[i], w.records[j]);
    }
  }

  /** Steps that only move statuses, bytes and the height. */
  lemma SameSafe(w: World, v: World)
    requires Safe(w) && Moved(w, v)
    ensures Safe(v)
  {
    hide Conflict, Apart, PaidFor, IsLargest;
    SamePaid(w, v);
    MovedConflict(w, v);
    MovedApart(w, v);
  }

  lemma SamePaid(w: World, v: World)
    requires v.applied == w.applied && |v.records| == |w.records|
    requires forall i :: 0 <= i < |w.records| ==> v.records[i].payment == w.records[i].payment
    ensures forall p :: PaidFor(v, p) <==> PaidFor(w, p)
  {
  }

  lemma {:induction false} LockedHas(rs: seq<Record>, j: nat)
    requires j < |rs| && !rs[j].status.Expired?
    ensures rs[j].inputs <= Locked(rs)
  {
    if j < |rs| - 1 { LockedHas(rs[..|rs| - 1], j); }
  }

  /** A new attempt apart from the other payments, that conflicts with the
      open ones of its own. */
  lemma AddSafe(w: World, r: Record)
    requires Safe(w) && r.largest in r.inputs && r.status.Pending? && !PaidFor(w, r.payment)
    requires r.inputs <= w.live && IsLargest(w.amounts, r.inputs, r.largest)
    requires forall j :: 0 <= j < |w.records| && !w.records[j].status.Expired? ==>
      if w.records[j].payment == r.payment then w.records[j].largest == r.largest else w.records[j].inputs !! r.inputs
    ensures Safe(w.(records := w.records + [r]))
  {
    hide Conflict, Apart, PaidFor, IsLargest;
    AddPaid(w, r);
    AddConflict(w, r);
    AddApart(w.records, r);
  }

  lemma AddConflict(w: World, r: Record)
    requires Honest(w) && Conflict(w)
    requires forall j :: 0 <= j < |w.records| && Rivals(w.records[j], r) ==> w.records[j].largest == r.largest
    ensures Conflict(w.(records := w.records + [r]))
  {
    AddPaid(w, r);
    hide PaidFor, Honest;
    var v := w.(records := w.records + [r]);
    forall i, j | 0 <= i < |v.records| && 0 <= j < |v.records| && Rivals(v.records[i], v.records[j])
      ensures PaidFor(v, v.records[i].payment) || v.records[i].largest == v.records[j].largest
    {
      if i < |w.records| && j < |w.records| {
        assert Rivals(w.records[i], w.records[j]);
      } else if i < |w.records| {
        assert Rivals(w.records[i], r);
      } else if j < |w.records| {
        assert Rivals(w.records[j], r);
      }
    }
  }

  lemma AddApart(rs: seq<Record>, r: Record)
    requires Apart(rs)
    requires forall j :: 0 <= j < |rs| && BothOpen(rs[j], r) && rs[j].payment != r.payment ==> rs[j].inputs !! r.inputs
    ensures Apart(rs + [r])
  {
    var all := rs + [r];
    forall i, j | 0 <= i < |all| && 0 <= j < |all| && BothOpen(all[i], all[j]) && all[i].payment != all[j].payment
      ensures all[i].inputs !! all[j].inputs
    {
      if i < |rs| && j < |rs| {
        assert BothOpen(rs[i], rs[j]);
      } else if i < |rs| {
        assert BothOpen(rs[i], r);
      } else if j < |rs| {
        assert BothOpen(rs[j], r);
      }
    }
  }

  lemma AddPaid(w: World, r: Record)
    requires Honest(w)
    ensures forall p :: PaidFor(w.(records := w.records + [r]), p) <==> PaidFor(w, p)
  {
    var v := w.(records := w.records + [r]);
    forall p ensures PaidFor(v, p) <==> PaidFor(w, p) {
      if PaidFor(w, p) {
        var i :| i in w.applied && i < |w.records| && w.records[i].payment == p;
        assert v.records[i].payment == p;
      }
    }
  }

  lemma PaySafe(w: World, p: int, coins: set<int>, inputs: set<int>, largest: int, expiry: nat)
    requires Safe(w) && Allowed(w, Pay(p, coins, inputs, largest, expiry))
    ensures Safe(Take(w, Pay(p, coins, inputs, largest, expiry)))
  {
    forall j: nat | j < |w.records| && !w.records[j].status.Expired? ensures w.records[j].inputs !! inputs {
      LockedHas(w.records, j);
    }
    AddSafe(w, Attempt(p, inputs, largest, expiry));
  }

  lemma ResendSafe(w: World, i: nat, coins: set<int>, inputs: set<int>, largest: int, expiry: nat)
    requires Safe(w) && Allowed(w, Resend(i, coins, inputs, largest, expiry))
    requires Careful(w, Resend(i, coins, inputs, largest, expiry))
    ensures Safe(Take(w, Resend(i, coins, inputs, largest, expiry)))
  {
    var r := w.records[i];
    forall j: nat | j < |w.records| && !w.records[j].status.Expired?
      ensures if w.records[j].payment == r.payment then w.records[j].largest == largest else w.records[j].inputs !! inputs
    {
      LockedHas(w.records, j);
      if !r.status.Expired? { assert BothOpen(w.records[j], r) && (w.records[j].payment == r.payment ==> Rivals(w.records[j], r)); }
    }
    AddSafe(w, Attempt(r.payment, inputs, largest, expiry));
  }

  /** Including one attempt spends the coin every other open attempt of the
      payment needs. */
  lemma IncludeOnce(w: World, i: nat)
    requires Safe(w) && Allowed(w, Include(i))
    ensures !PaidFor(w, w.records[i].payment) && Safe(Take(w, Include(i)))
  {
    var v := Take(w, Include(i));
    assert !Terminal(w.records[i].status) && !PaidFor(w, w.records[i].payment);
    IncludePaid(w, i);
    hide PaidFor, IsLargest;
    forall j | 0 <= j < |v.records| && PaidFor(v, v.records[j].payment) && !Terminal(v.records[j].status)
      ensures !(v.records[j].inputs <= v.live)
    {
      RivalBlocked(w, i, j);
    }
    forall j | 0 <= j < |v.records| && !v.records[j].status.Expired? && !PaidFor(v, v.records[j].payment)
      ensures v.records[j].inputs <= v.live && IsLargest(v.amounts, v.records[j].inputs, v.records[j].largest)
    {
      OtherStaysOpen(w, i, j);
    }
  }

  lemma RivalBlocked(w: World, i: nat, j: nat)
    requires Safe(w) && Allowed(w, Include(i)) && j < |w.records| && !Terminal(w.records[j].status)
    requires PaidFor(Take(w, Include(i)), w.records[j].payment)
    ensures !(w.records[j].inputs <= Take(w, Include(i)).live)
  {
    IncludePaid(w, i);
    if w.records[j].payment == w.records[i].payment {
      assert Rivals(w.records[i], w.records[j]);
      assert w.records[i].largest in w.records[j].inputs && w.records[i].largest !in Take(w, Include(i)).live;
    }
  }

  lemma OtherStaysOpen(w: World, i: nat, j: nat)
    requires Safe(w) && Allowed(w, Include(i)) && j < |w.records| && !w.records[j].status.Expired?
    requires !PaidFor(Take(w, Include(i)), w.records[j].payment)
    ensures var v := Take(w, Include(i));
            w.records[j].inputs <= v.live && IsLargest(v.amounts, w.records[j].inputs, w.records[j].largest)
  {
    hide IsLargest;
    IncludePaid(w, i);
    assert BothOpen(w.records[i], w.records[j]);
  }

  lemma IncludePaid(w: World, i: nat)
    requires Allowed(w, Include(i))
    ensures forall p :: PaidFor(Take(w, Include(i)), p) <==> PaidFor(w, p) || p == w.records[i].payment
  {
    var v := Take(w, Include(i));
    forall p ensures PaidFor(v, p) <==> PaidFor(w, p) || p == w.records[i].payment {
      if PaidFor(w, p) {
        var j :| j in w.applied && j < |w.records| && w.records[j].payment == p;
        assert j in v.applied && v.records[j].payment == p;
      }
      if p == w.records[i].payment { assert i in v.applied && v.records[i].payment == p; }
    }
  }

  lemma TakeSafe(w: World, step: Step)
    requires Safe(w) && Allowed(w, step) && Heeded(w, step)
    ensures Safe(Take(w, step))
  {
    hide Safe, Careful, Revives, MayUse, Built;
    match step
    case Make(c, a) => MakeSafe(w, c, a);
    case Pay(p, coins, inputs, largest, expiry) => PaySafe(w, p, coins, inputs, largest, expiry);
    case Resend(i, coins, inputs, largest, expiry) => ResendSafe(w, i, coins, inputs, largest, expiry);
    case Include(i) => IncludeOnce(w, i);
    case Submit(i, f) => MoveSafe(w, step);
    case Reply(i, a) => MoveSafe(w, step);
    case Scan(i, tip) => MoveSafe(w, step);
    case Reload => MoveSafe(w, step);
    case NextBlock => MoveSafe(w, step);
  }

  lemma MoveSafe(w: World, step: Step)
    requires Safe(w) && Allowed(w, step)
    requires step.Submit? || step.Reply? || step.Scan? || step.Reload? || step.NextBlock?
    ensures Safe(Take(w, step))
  {
    hide Apart, Unspent, Conflict, Blocked, AtMostOnce;
    SameSafe(w, Take(w, step));
  }

  // ── every run ───────────────────────────────────────────────────────

  lemma {:induction false} SafeFrom(w: World, steps: seq<Step>)
    requires Safe(w) && Good(w, steps)
    ensures Safe(From(w, steps).value)
  {
    hide Safe, Allowed, Take, Heeded;
    if steps != [] {
      var n := |steps| - 1;
      SafeFrom(w, steps[..n]);
      TakeSafe(From(w, steps[..n]).value, steps[n]);
    }
  }

  /** Whatever the answers, losses, reloads, scans and blocks, no payment is
      ever applied twice in a run that heeds the provisos. */
  lemma RunsSafe(steps: seq<Step>)
    requires Good(START, steps)
    ensures Safe(Run(steps).value) && AtMostOnce(Run(steps).value)
  {
    hide From, Good;
    SafeFrom(START, steps);
  }

  lemma Extend(w: World, steps: seq<Step>, step: Step)
    requires From(w, steps).Some? && Allowed(From(w, steps).value, step)
    ensures From(w, steps + [step]) == Some(Take(From(w, steps).value, step))
    ensures Good(w, steps) && Heeded(From(w, steps).value, step) ==> Good(w, steps + [step])
  {
    assert (steps + [step])[..|steps|] == steps;
  }

  lemma Nothing(w: World)
    ensures From(w, []) == Some(w) && Good(w, [])
  {
  }

  // ── both provisos are exact ─────────────────────────────────────────

  /** A new attempt of a payment already made is sent and included. */
  lemma PaysAgain(w: World, k: nat) returns (more: seq<Step>)
    requires Honest(w) && k < |w.records| && k !in w.applied && PaidFor(w, w.records[k].payment)
    requires w.records[k].status.Pending? && w.records[k].bytes.Kept?
    requires w.records[k].inputs <= w.live && w.height <= w.records[k].expiry
    ensures Good(w, more) && !AtMostOnce(From(w, more).value)
  {
    hide From, Good;
    Nothing(w);
    Extend(w, [], Submit(k, true));
    var v := Take(w, Submit(k, true));
    assert [] + [Submit(k, true)] == [Submit(k, true)];
    Extend(w, [Submit(k, true)], Include(k));
    more := [Submit(k, true)] + [Include(k)];
    var u := Take(v, Include(k));
    var i :| i in w.applied && i < |w.records| && w.records[i].payment == w.records[k].payment;
    assert i in u.applied && k in u.applied && u.records[i].payment == u.records[k].payment;
  }

  lemma {:induction false} FromJoin(w: World, a: seq<Step>, b: seq<Step>)
    requires Good(w, a) && Good(From(w, a).value, b)
    ensures Good(w, a + b) && From(w, a + b) == From(From(w, a).value, b)
    decreases |b|
  {
    hide Allowed, Take, Heeded;
    if b == [] {
      assert a + b == a;
    } else {
      var n := |b| - 1;
      FromJoin(w, a, b[..n]);
      assert (a + b)[..|a| + n] == a + b[..n];
    }
  }

  /** One step first, then the rest. */
  lemma Then(w: World, step: Step, more: seq<Step>)
    requires Allowed(w, step) && Heeded(w, step) && Good(Take(w, step), more)
    ensures Good(w, [step] + more) && From(w, [step] + more) == From(Take(w, step), more)
  {
    hide Allowed, Take, Heeded, From, Good;
    Nothing(w);
    Extend(w, [], step);
    assert [] + [step] == [step];
    FromJoin(w, [step], more);
  }

  /** Two unpaid attempts that share no coin are both sent and included. */
  lemma BothPay(w: World, k: nat, m: nat) returns (more: seq<Step>)
    requires Honest(w) && k < |w.records| && m < |w.records| && k != m && k !in w.applied && m !in w.applied
    requires w.records[k].payment == w.records[m].payment && w.records[k].inputs !! w.records[m].inputs
    requires forall x :: x in {k, m} ==>
      && w.records[x].status.Pending? && w.records[x].bytes.Kept?
      && w.records[x].inputs <= w.live && w.height <= w.records[x].expiry
    ensures Good(w, more) && !AtMostOnce(From(w, more).value)
  {
    hide From, Good;
    assert k in {k, m} && m in {k, m};
    var v := Take(w, Submit(k, true));
    var u := Take(v, Include(k));
    assert k in u.applied && u.records[k].payment == u.records[m].payment;
    var rest := PaysAgain(u, m);
    Then(v, Include(k), rest);
    Then(w, Submit(k, true), [Include(k)] + rest);
    more := [Submit(k, true)] + ([Include(k)] + rest);
  }

  /** With any attempt of the payment open, the resend of an expired one with
      other coins can end in two payments. */
  lemma FreshPaysTwice(w: World, i: nat, coins: set<int>, inputs: set<int>, largest: int, expiry: nat)
    returns (more: seq<Step>)
    requires Safe(w) && Allowed(w, Resend(i, coins, inputs, largest, expiry)) && w.height <= expiry
    requires w.records[i].status.Expired? && !NoneOpen(w.records, w.records[i].payment)
    ensures var v := Take(w, Resend(i, coins, inputs, largest, expiry));
            Good(v, more) && !AtMostOnce(From(v, more).value)
  {
    hide From, Good, Apart, Conflict, Blocked, AtMostOnce, IsLargest;
    var v, k, p := Take(w, Resend(i, coins, inputs, largest, expiry)), |w.records|, w.records[i].payment;
    AddPaid(w, v.records[k]);
    if PaidFor(w, p) {
      more := PaysAgain(v, k);
    } else {
      var j :| 0 <= j < |w.records| && w.records[j].payment == p && !w.records[j].status.Expired?;
      var r := w.records[j];
      NotConfirmed(w, j);
      LockedHas(w.records, j);
      var again := Resend(j, r.inputs, r.inputs, r.largest, w.height);
      assert Allowed(v, again) && Heeded(v, again);
      var u := Take(v, again);
      var rest := BothPay(u, k, k + 1);
      Then(v, again, rest);
      more := [again] + rest;
    }
  }

  lemma NotConfirmed(w: World, j: nat)
    requires Honest(w) && j < |w.records| && !PaidFor(w, w.records[j].payment)
    ensures !w.records[j].status.Confirmed?
  {
  }

  /** In every world a heeding run reaches, the resend an expired row allows
      is safe under all heeding continuations if and only if every attempt of
      the payment has expired. */
  lemma ResendRule(steps: seq<Step>, i: nat, coins: set<int>, inputs: set<int>, largest: int, expiry: nat)
    requires Good(START, steps) && Allowed(Run(steps).value, Resend(i, coins, inputs, largest, expiry))
    requires Run(steps).value.height <= expiry && Run(steps).value.records[i].status.Expired?
    ensures var w := Run(steps).value;
            var v := Take(w, Resend(i, coins, inputs, largest, expiry));
            (forall more :: Good(v, more) ==> AtMostOnce(From(v, more).value))
            <==> NoneOpen(w.records, w.records[i].payment)
  {
    hide Safe, From, Take;
    RunsSafe(steps);
    var w, step := Run(steps).value, Resend(i, coins, inputs, largest, expiry);
    var v := Take(w, step);
    if NoneOpen(w.records, w.records[i].payment) {
      TakeSafe(w, step);
      SafeForever(v);
    } else {
      var more := FreshPaysTwice(w, i, coins, inputs, largest, expiry);
      assert Good(v, more);
    }
  }

  lemma SafeForever(v: World)
    requires Safe(v)
    ensures forall more :: Good(v, more) ==> AtMostOnce(From(v, more).value)
  {
    hide From;
    forall more | Good(v, more) ensures AtMostOnce(From(v, more).value) { SafeFrom(v, more); }
  }

  lemma {:induction false} LargestExists(amounts: map<int, nat>, coins: set<int>, d: int) returns (c: int)
    requires d in coins && coins <= amounts.Keys
    ensures IsLargest(amounts, coins, c)
    decreases coins
  {
    c := d;
    if e :| e in coins && e != d {
      var rest := LargestExists(amounts, coins - {d}, e);
      c := if amounts[rest] > amounts[d] || (amounts[rest] == amounts[d] && rest < d) then rest else d;
    }
  }

  /** An unsettled attempt of a payment already made, all of its coins unspent
      again: sent once more, it pays twice. */
  lemma RevivedPaysTwice(w: World, j: nat) returns (more: seq<Step>)
    requires Honest(w) && j < |w.records| && PaidFor(w, w.records[j].payment)
    requires !Terminal(w.records[j].status) && w.records[j].inputs <= w.live
    ensures Good(w, more) && !AtMostOnce(From(w, more).value)
  {
    hide From, Good, AtMostOnce;
    var r, k := w.records[j], |w.records|;
    var largest := LargestExists(w.amounts, r.inputs, r.largest);
    var again := Resend(j, r.inputs, r.inputs, largest, w.height);
    var v := Take(w, again);
    AddPaid(w, v.records[k]);
    var rest := PaysAgain(v, k);
    Then(w, again, rest);
    more := [again] + rest;
  }

  /** In every world a heeding run reaches, making a coin, new or spent, is
      harmless under all heeding continuations if and only if it does not
      revive an unsettled attempt of a payment already made. */
  lemma RevivalRule(steps: seq<Step>, c: int, a: nat)
    requires Good(START, steps) && c !in Run(steps).value.live
    ensures var w := Run(steps).value;
            var v := Take(w, Make(c, a));
            (forall more :: Good(v, more) ==> AtMostOnce(From(v, more).value)) <==> !Revives(w, c)
  {
    hide From, IsLargest, Apart, Unspent, Conflict, Blocked;
    RunsSafe(steps);
    var w := Run(steps).value;
    var v := Take(w, Make(c, a));
    if Revives(w, c) {
      var j :| 0 <= j < |w.records| && PaidFor(w, w.records[j].payment) && !Terminal(w.records[j].status)
        && w.records[j].inputs <= w.live + {c};
      SamePaid(w, v);
      var more := RevivedPaysTwice(v, j);
      assert Good(v, more);
    } else {
      TakeSafe(w, Make(c, a));
      SafeForever(v);
    }
  }

  // ── no record is open for ever ──────────────────────────────────────

  lemma {:induction false} LockedOnly(rs: seq<Record>, c: int)
    requires c in Locked(rs)
    ensures exists j :: 0 <= j < |rs| && !rs[j].status.Expired? && c in rs[j].inputs
    decreases |rs|
  {
    var n := |rs| - 1;
    if c in Locked(rs[..n]) {
      LockedOnly(rs[..n], c);
      var j :| 0 <= j < n && !rs[..n][j].status.Expired? && c in rs[..n][j].inputs;
      assert rs[j] == rs[..n][j];
    }
  }

  /** In every world a run reaches, a scan of an unsettled record at the tip
      tells the truth: confirmed if it was included, expired if it can no
      longer be, pending otherwise; and once all records of a coin have expired
      the coin is free. */
  lemma ScanSettles(steps: seq<Step>, i: nat, c: int)
    requires Good(START, steps) && i < |Run(steps).value.records| && !Terminal(Run(steps).value.records[i].status)
    ensures var w := Run(steps).value;
            Allowed(w, Scan(i, w.height))
    ensures var w := Run(steps).value;
            var v := Take(w, Scan(i, w.height));
            && (v.records[i].status.Confirmed? <==> i in w.applied)
            && (v.records[i].status.Expired? <==> i !in w.applied && w.height > w.records[i].expiry)
            && ((forall j :: 0 <= j < |v.records| && c in v.records[j].inputs ==> v.records[j].status.Expired?) ==>
                  c !in Locked(v.records))
  {
    hide From, Locked, Apart, Unspent, Conflict, Blocked;
    RunsSafe(steps);
    HeightsPast(steps);
    var w := Run(steps).value;
    var v := Take(w, Scan(i, w.height));
    if c in Locked(v.records) { LockedOnly(v.records, c); }
  }

  /** Nothing is included in a block still to come. */
  predicate Past(w: World) { forall i :: i in w.applied ==> w.applied[i] <= w.height }

  lemma {:induction false} PastFrom(w: World, steps: seq<Step>)
    requires Past(w) && From(w, steps).Some?
    ensures Past(From(w, steps).value)
    decreases |steps|
  {
    if steps != [] { PastFrom(w, steps[..|steps| - 1]); }
  }

  lemma HeightsPast(steps: seq<Step>)
    requires Good(START, steps)
    ensures Past(Run(steps).value)
  {
    PastFrom(START, steps);
  }

  // ── two runs that pay twice ─────────────────────────────────────────

  const FIRST := Record(1, {10}, 10, 1, Expired, Gone)
  const AGAIN := Record(1, {10}, 10, 9, Pending, Asked)
  const FIVE: map<int, nat> := map[10 := 5]

  lemma Ten()
    ensures IsLargest(FIVE, {10}, 10)
  {
  }

  /** A coin, a payment from it, a node that never got it, and a resend that
      did. */
  lemma Resent()
    ensures Good(START, [Make(10, 5), Pay(1, {10}, {10}, 10, 1), Submit(0, false), Reply(0, Failed),
                         Resend(0, {10}, {10}, 10, 9), Submit(1, true)])
    ensures Run([Make(10, 5), Pay(1, {10}, {10}, 10, 1), Submit(0, false), Reply(0, Failed),
                 Resend(0, {10}, {10}, 10, 9), Submit(1, true)])
         == Some(World(1, FIVE, {10}, {1}, map[], [FIRST.(status := Unknown), AGAIN]))
  {
    hide From, Good;
    Ten();
    Nothing(START);
    var w1 := World(1, FIVE, {10}, {}, map[], []);
    assert Take(START, Make(10, 5)) == w1 && !Revives(START, 10);
    Extend(START, [], Make(10, 5));
    var s1 := [] + [Make(10, 5)];
    var w2 := w1.(records := [Record(1, {10}, 10, 1, Pending, Kept)]);
    assert Take(w1, Pay(1, {10}, {10}, 10, 1)) == w2;
    Extend(START, s1, Pay(1, {10}, {10}, 10, 1));
    var s2 := s1 + [Pay(1, {10}, {10}, 10, 1)];
    assert s2 == [Make(10, 5), Pay(1, {10}, {10}, 10, 1)];
    ResentRest(s2, w2);
    assert s2 + [Submit(0, false), Reply(0, Failed), Resend(0, {10}, {10}, 10, 9), Submit(1, true)]
        == [Make(10, 5), Pay(1, {10}, {10}, 10, 1), Submit(0, false), Reply(0, Failed),
            Resend(0, {10}, {10}, 10, 9), Submit(1, true)];
  }

  lemma ResentRest(s2: seq<Step>, w2: World)
    requires s2 == [Make(10, 5), Pay(1, {10}, {10}, 10, 1)] && Good(START, s2) && From(START, s2) == Some(w2)
    requires w2 == World(1, FIVE, {10}, {}, map[], [Record(1, {10}, 10, 1, Pending, Kept)])
    ensures var all := s2 + [Submit(0, false), Reply(0, Failed), Resend(0, {10}, {10}, 10, 9), Submit(1, true)];
            && Good(START, all)
            && From(START, all) == Some(World(1, FIVE, {10}, {1}, map[], [FIRST.(status := Unknown), AGAIN]))
  {
    hide From, Good;
    Ten();
    var r := Record(1, {10}, 10, 1, Pending, Asked);
    var w3 := w2.(records := [r]);
    assert Take(w2, Submit(0, false)) == w3;
    Extend(START, s2, Submit(0, false));
    var s3 := s2 + [Submit(0, false)];
    var w4 := w2.(records := [FIRST.(status := Unknown)]);
    assert Take(w3, Reply(0, Failed)) == w4;
    Extend(START, s3, Reply(0, Failed));
    var s4 := s3 + [Reply(0, Failed)];
    var w5 := w2.(records := [FIRST.(status := Unknown), AGAIN.(bytes := Kept)]);
    assert Take(w4, Resend(0, {10}, {10}, 10, 9)) == w5;
    Extend(START, s4, Resend(0, {10}, {10}, 10, 9));
    var s5 := s4 + [Resend(0, {10}, {10}, 10, 9)];
    assert w5.records[1 := AGAIN] == [FIRST.(status := Unknown), AGAIN];
    assert {} + {1} == {1};
    Extend(START, s5, Submit(1, true));
    assert s5 + [Submit(1, true)]
        == s2 + [Submit(0, false), Reply(0, Failed), Resend(0, {10}, {10}, 10, 9), Submit(1, true)];
  }

  /** The resend is included and the first attempt is scanned: its row says
      expired while the payment has been made. */
  lemma LateScan() returns (steps: seq<Step>)
    ensures Good(START, steps)
    ensures Run(steps) == Some(World(2, FIVE[20 := 7], {20}, {1}, map[1 := 1], [FIRST, AGAIN]))
  {
    hide From, Good;
    Resent();
    steps := [Make(10, 5), Pay(1, {10}, {10}, 10, 1), Submit(0, false), Reply(0, Failed),
              Resend(0, {10}, {10}, 10, 9), Submit(1, true)];
    var w := World(1, FIVE, {10}, {1}, map[], [FIRST.(status := Unknown), AGAIN]);
    var w1 := w.(live := {}, applied := map[1 := 1]);
    assert Take(w, Include(1)) == w1;
    Extend(START, steps, Include(1));
    steps := steps + [Include(1)];
    Extend(START, steps, NextBlock);
    steps := steps + [NextBlock];
    var w3 := w1.(height := 2, records := [FIRST, AGAIN]);
    assert w1.records[0 := FIRST] == [FIRST, AGAIN];
    assert Take(w1.(height := 2), Scan(0, 2)) == w3;
    Extend(START, steps, Scan(0, 2));
    steps := steps + [Scan(0, 2)];
    assert !Revives(w3, 20) by {
      assert forall j :: 0 <= j < 2 && !Terminal(w3.records[j].status) ==> 10 in w3.records[j].inputs;
    }
    assert Take(w3, Make(20, 7)) == w3.(amounts := FIVE[20 := 7], live := {20});
    Extend(START, steps, Make(20, 7));
    steps := steps + [Make(20, 7)];
  }

  /** A run and a continuation that heed the provisos, with one step between
      them that does not, and a payment made twice. */
  predicate OneStepPaysTwice(before: seq<Step>, step: Step, after: seq<Step>) {
    && Good(START, before) && Allowed(Run(before).value, step) && !Heeded(Run(before).value, step)
    && var v := Take(Run(before).value, step);
       Good(v, after) && !AtMostOnce(From(v, after).value)
  }

  /** The row's own expiry allows a resend with another coin, and the payment
      is made twice. */
  lemma PaidTwice() returns (before: seq<Step>, step: Step, after: seq<Step>)
    ensures step.Resend? && OneStepPaysTwice(before, step, after)
  {
    hide From, Good, AtMostOnce;
    before := LateScan();
    RunsSafe(before);
    var w := Run(before).value;
    step := Resend(0, {20}, {20}, 20, 9);
    LockedBy(FIRST, AGAIN);
    assert IsLargest(w.amounts, {20}, 20);
    assert w.records[1].payment == w.records[0].payment && !w.records[1].status.Expired?;
    after := FreshPaysTwice(w, 0, {20}, {20}, 20, 9);
  }

  lemma LockedBy(a: Record, b: Record)
    requires a.status.Expired? && !b.status.Expired?
    ensures Locked([a, b]) == b.inputs
  {
    var none: seq<Record> := [];
    assert [a][..0] == none && Locked([a]) == {};
    assert [a, b][..1] == [a];
  }

  /** The coin of an included attempt is made again before the wallet knows
      of the inclusion, and the payment is made twice. */
  lemma MadeAgain() returns (before: seq<Step>, step: Step, after: seq<Step>)
    ensures step.Make? && OneStepPaysTwice(before, step, after)
  {
    hide From, Good, AtMostOnce;
    Resent();
    before := [Make(10, 5), Pay(1, {10}, {10}, 10, 1), Submit(0, false), Reply(0, Failed),
               Resend(0, {10}, {10}, 10, 9), Submit(1, true)];
    var w := World(1, FIVE, {10}, {1}, map[], [FIRST.(status := Unknown), AGAIN]);
    Extend(START, before, Include(1));
    before := before + [Include(1)];
    RunsSafe(before);
    var v := Take(w, Include(1));
    assert v.live == {};
    step := Make(10, 5);
    var u := Take(v, step);
    assert 1 in u.applied && u.records[1].payment == 1;
    assert v.records[1].inputs <= v.live + {10} && 1 in v.applied;
    after := RevivedPaysTwice(u, 1);
  }

  // ── the builder ─────────────────────────────────────────────────────

  /** The coins of the builder's list it may pick from. */
  function Offered(coins: seq<CoinSelect.Coin>): set<int> {
    set i | 0 <= i < |coins| && CoinSelect.Usable(coins[i], 0) :: coins[i].nul
  }

  function Picked(coins: seq<CoinSelect.Coin>, idx: seq<nat>): set<int>
    requires forall i :: 0 <= i < |idx| ==> idx[i] < |coins|
  {
    set i | 0 <= i < |idx| :: coins[idx[i]].nul
  }

  /** A pick of the spend planner is what `Built` asks for: from the offered
      coins, the largest of them included. */
  lemma PlannerBuilds(w: World, coins: seq<CoinSelect.Coin>, need: nat, k: nat)
    requires CoinSelect.SortedCoins(coins) && need > 0 && CoinSelect.Reaches(CoinSelect.Purse(coins, 0), need, k)
    requires forall i :: 0 <= i < |coins| ==> coins[i].nul in w.amounts && w.amounts[coins[i].nul] == coins[i].amount
    ensures var idx := CoinSelect.UsableTo(coins, 0, |coins|);
            0 < k <= |idx| && Built(w, Offered(coins), Picked(coins, idx[..k]), coins[idx[0]].nul)
  {
    CoinSelect.TakesLargest(coins, 0, need, k);
    CoinSelect.UsableAscends(coins, 0, |coins|);
    var idx := CoinSelect.UsableTo(coins, 0, |coins|);
    assert idx[..k][0] == idx[0];
    forall i | 0 <= i < |coins| && CoinSelect.Usable(coins[i], 0) && i != idx[0]
      ensures coins[i].amount < coins[idx[0]].amount
              || (coins[i].amount == coins[idx[0]].amount && coins[idx[0]].nul < coins[i].nul)
    {
      CoinSelect.UsableHas(coins, 0, |coins|, i);
      var j :| 0 <= j < |idx| && idx[j] == i;
      assert idx[0] < idx[j];
    }
  }

  // ── the record list ─────────────────────────────────────────────────

  datatype Outcome = NothingKept | Settled | Sent | BusyAgain | Refused

  class Activity {
    var rows: seq<Record>

    constructor ()
      ensures rows == []
    {
      rows := [];
    }

    method LockedInputs() returns (locked: set<int>)
      ensures locked == Locked(rows)
    {
      locked := {};
      for i := 0 to |rows|
        invariant locked == Locked(rows[..i])
      {
        assert rows[..i + 1][..i] == rows[..i];
        if !rows[i].status.Expired? { locked := locked + rows[i].inputs; }
      }
      assert rows[..|rows|] == rows;
    }

    /** Try again: the kept bytes, unless the record is final. `later` is its
        status when the answer comes, which a scan may have moved meanwhile.
        The bytes stay only when the node is busy once more and the record is
        still open. */
    method ResubmitKept(i: nat, answer: Answer, later: Status) returns (outcome: Outcome)
      requires i < |rows|
      modifies this
      ensures |rows| == |old(rows)| && forall j :: 0 <= j < |rows| && j != i ==> rows[j] == old(rows)[j]
      ensures var r := old(rows)[i];
              rows[i] == if !r.bytes.Kept? then r else if Terminal(r.status) then r.(bytes := Gone)
                         else Answered(r.(status := later), answer)
      ensures outcome.NothingKept? <==> !old(rows)[i].bytes.Kept?
      ensures Terminal(old(rows)[i].status) && old(rows)[i].bytes.Kept? ==> outcome.Settled?
      ensures outcome.BusyAgain? <==>
        old(rows)[i].bytes.Kept? && !Terminal(old(rows)[i].status) && answer.Busy? && !Terminal(later)
      ensures rows[i].bytes.Kept? <==> outcome.BusyAgain?
    {
      var r := rows[i];
      if !r.bytes.Kept? { return NothingKept; }
      if Terminal(r.status) {
        rows := rows[i := r.(bytes := Gone)];
        return Settled;
      }
      r := r.(status := later);
      match answer
      case Busy =>
        if Terminal(r.status) {
          rows := rows[i := r.(bytes := Gone)];
          return Settled;
        }
        rows := rows[i := r];
        outcome := BusyAgain;
      case Accepted =>
        rows := rows[i := r.(bytes := Gone)];
        outcome := Sent;
      case Failed =>
        r := r.(bytes := Gone);
        if !Terminal(r.status) { r := r.(status := Unknown); }
        rows := rows[i := r];
        outcome := Refused;
    }
  }
}
