/** The witness node: its tables, and the block engine that updates them in
    place. Every method is proved against the specification of its step. */
module Node {
  import opened Sums
  import opened Ledger
  import opened Transactions
  import opened Settlement
  import opened Ranking
  import opened Committee
  import opened Boundary
  import opened Runs
  import Acceptance

  method SumRows(rows: map<Key, nat>) returns (total: nat)
    ensures total == Sum(rows)
  {
    hide Sum;
    total := 0;
    var todo := rows;
    while todo != map[]
      invariant total + Sum(todo) == Sum(rows)
      decreases |todo|
    {
      var k :| k in todo;
      SumRemove(todo, k);
      total := total + todo[k];
      assert (todo - {k}).Keys == todo.Keys - {k};
      todo := todo - {k};
    }
    SumZero(todo);
  }

  /** The accrual rows are positive and fit the store's integers. */
  predicate RowsFit(acc: map<Key, nat>) {
    forall k :: k in acc ==> 0 < acc[k] <= STORE_MAX
  }

  /** `after` is `before` with the credits added, row by row. */
  ghost predicate Added(before: map<Key, nat>, credits: map<Key, nat>, after: map<Key, nat>) {
    forall k :: At(after, k) == At(before, k) + At(credits, k)
  }

  ghost predicate Overflows(before: map<Key, nat>, credits: map<Key, nat>) {
    exists k :: At(before, k) + At(credits, k) > STORE_MAX
  }

  lemma AddedIsAccrue(before: map<Key, nat>, credits: map<Key, nat>, after: map<Key, nat>)
    requires Added(before, credits, after) && RowsFit(after)
    ensures after == Accrue(before, credits)
  {
    var r := Accrue(before, credits);
    forall k ensures k in after <==> k in r { assert At(after, k) == At(before, k) + At(credits, k); }
    assert after.Keys == r.Keys;
    forall k | k in after.Keys ensures after[k] == r[k] { assert At(after, k) == At(r, k); }
  }

  class Node {
    const params: Params
    var height: nat
    var genesisSupply: nat
    var burned: nat
    var pool: nat
    var coins: map<CoinId, Coin>
    var validators: map<Key, Validator>
    var delegations: map<Pair, nat>
    var accrual: map<Key, nat>
    var allocations: map<nat, Allocation>
    var reserves: nat
    var activeCount: nat
    var copies: map<nat, Copy>
    var snapshots: map<nat, seq<Entry>>
    var attendance: map<Key, Attendance>

    /** The committed state the tables hold. */
    function Abs(): State
      reads this
    {
      State(params, height, genesisSupply, burned, pool, coins, validators, delegations, accrual,
            allocations, reserves, activeCount, copies, snapshots, attendance)
    }

    // ── the distribution ──────────────────────────────────────────────

    /** Adds x to one accrual row; a zero credit writes nothing. */
    method AccrueRow(owner: Key, x: nat) returns (ok: bool)
      requires RowsFit(accrual)
      modifies this`accrual
      ensures ok <==> At(old(accrual), owner) + x <= STORE_MAX
      ensures ok ==> RowsFit(accrual) && Added(old(accrual), map[owner := x], accrual)
    {
      if x == 0 { return true; }
      var now := At(accrual, owner) + x;
      if now > STORE_MAX { return false; }
      accrual := accrual[owner := now];
      return true;
    }

    /** The net rest of a share, row by row. */
    method PayStakers(net: nat, rows: map<Key, nat>, sum: nat) returns (ok: bool, credited: nat)
      requires RowsFit(accrual) && sum == Sum(rows) > 0
      modifies this`accrual
      ensures ok <==> !Overflows(old(accrual), StakerCredits(net, rows))
      ensures ok ==> RowsFit(accrual) && Added(old(accrual), StakerCredits(net, rows), accrual)
      ensures ok ==> credited == Sum(StakerCredits(net, rows))
    {
      hide Sum, MulDiv;
      ghost var all := StakerCredits(net, rows);
      ok, credited := true, 0;
      var todo := rows;
      ghost var left := all;
      while todo != map[]
        invariant ok && todo.Keys == left.Keys <= rows.Keys
        invariant forall d :: d in todo ==> todo[d] == rows[d] && left[d] == all[d]
        invariant RowsFit(accrual)
        invariant forall k :: At(accrual, k) + At(left, k) == At(old(accrual), k) + At(all, k)
        invariant credited + Sum(left) == Sum(all)
        decreases |todo|
      {
        var d :| d in todo;
        var x := MulDiv(net, todo[d], sum);
        SumRemove(left, d);
        assert At(accrual, d) + At(left, d) == At(old(accrual), d) + At(all, d);
        ok := AccrueRow(d, x);
        if !ok { return; }
        credited := credited + x;
        assert (todo - {d}).Keys == todo.Keys - {d} == (left - {d}).Keys;
        todo, left := todo - {d}, left - {d};
      }
      SumZero(left);
    }

    /** One seat's share: base and commission to the validator, the net pro
        rata to the frozen delegation rows. */
    method PayMember(e: Entry, share: nat, rows: map<Key, nat>) returns (ok: bool, credited: nat)
      requires 0 < e.total && e.bond <= e.total && e.commission <= COMMISSION_MAX && RowsFit(accrual)
      modifies this`accrual
      ensures ok <==> !Overflows(old(accrual), MemberCredits(e.key, SplitOf(e, share), rows))
      ensures ok ==> RowsFit(accrual) && Added(old(accrual), MemberCredits(e.key, SplitOf(e, share), rows), accrual)
      ensures ok ==> credited == Sum(MemberCredits(e.key, SplitOf(e, share), rows))
    {
      hide Sum, StakerCredits, Added, Overflows, RowsFit, Plus;
      var p := SplitOf(e, share);
      ghost var own: map<Key, nat>, staker := map[e.key := p.base + p.commission], StakerCredits(p.net, rows);
      MemberCreditsSum(e.key, p, rows);
      PlusSwap(staker, own);
      credited := p.base + p.commission;
      ok := AccrueRow(e.key, credited);
      if !ok {
        OverflowsOwn(old(accrual), own, staker, e.key);
        return;
      }
      Composed(old(accrual), own, accrual, staker);
      var sum := SumRows(rows);
      if p.net > 0 && sum > 0 {
        ghost var mid := accrual;
        var x;
        ok, x := PayStakers(p.net, rows, sum);
        credited := credited + x;
        if ok { ComposedAdded(old(accrual), own, mid, staker, accrual); }
      } else {
        NoStakerCredits(p.net, rows);
        NothingAdded(accrual, staker);
        ComposedAdded(old(accrual), own, accrual, staker, accrual);
      }
    }

    /** Pass 2: the seats in their committed order. */
    method PaySeats(h: nat, seats: seq<Entry>, payout: nat, total: nat, copy: Copy, ghost r: Round)
      returns (ok: bool, paid: nat)
      requires total == TotalPower(seats) > 0 && RowsFit(accrual)
      requires forall i :: 0 <= i < |seats| ==> SeatMatches(seats[i], copy)
      requires r == Round(h, seats, Shares(payout, seats), copy, validators.Keys, attendance)
      modifies this`accrual
      ensures ok <==> RoundOk(r) && !Overflows(old(accrual), Credits(r, |seats|))
      ensures ok ==> RowsFit(accrual) && Added(old(accrual), Credits(r, |seats|), accrual)
      ensures ok ==> paid == Sum(Credits(r, |seats|))
    {
      hide Sum, Added, Overflows, RowsFit, SeatMatches, MemberCredits, MeetsBar, TotalPower, Credits, SeatsOk, SeatOk;
      ok, paid := true, 0;
      var i := 0;
      NoSeats(accrual, r);
      while i < |seats|
        invariant 0 <= i <= |seats| && ok && RowsFit(accrual) && SeatsOk(r, i)
        invariant Added(old(accrual), Credits(r, i), accrual) && paid == Sum(Credits(r, i))
      {
        var e, share := seats[i], MulDiv(payout, Power(seats[i]), total);
        SeatJudged(r, i);
        if share > 0 && e.key in validators && MeetsBar(attendance, e.key, h) {
          if e.commission > COMMISSION_MAX || e.total == 0 { return false, 0; }
          ghost var mid := accrual;
          var x;
          SeatBond(e, copy);
          ok, x := PayMember(e, share, StakesOn(copy.stakes, e.key));
          if !ok {
            OverflowStep(old(accrual), r, i, mid);
            return;
          }
          PaidStep(old(accrual), r, i, mid, accrual);
          paid := paid + x;
        } else {
          UnpaidStep(old(accrual), r, i, accrual);
        }
        i := i + 1;
      }
      FitsNoOverflow(old(accrual), Credits(r, |seats|), accrual);
    }

    /** Both passes over one round; the pool gives exactly what was credited. */
    method PayRound(h: nat, seats: seq<Entry>, payout: nat, copy: Copy, ghost r: Round) returns (ok: bool)
      requires RowsFit(accrual) && payout <= pool
      requires r.height == h && r.seats == seats && r.copy == copy && r.rows == validators.Keys
      requires r.attendance == attendance
      requires r.shares == if TotalPower(seats) > 0 then Shares(payout, seats) else seq(|seats|, i => 0)
      modifies this`pool, this`accrual
      ensures ok <==> RoundOk(r) && !Overflows(old(accrual), Credits(r, |seats|))
      ensures ok ==> accrual == Accrue(old(accrual), Credits(r, |seats|))
      ensures ok ==> pool == old(pool) - Sum(Credits(r, |seats|))
    {
      hide Sum, Added, Overflows, SeatMatches, Credits, TotalPower, RowsFit, SeatsOk;
      var total;
      ok, total := CheckSeats(seats, copy);
      if !ok {
        GateFails(r);
        return;
      }
      if total == 0 {
        PowerlessRound(r, |seats|);
        NothingAdded(accrual, Credits(r, |seats|));
        AddedIsAccrue(accrual, Credits(r, |seats|), accrual);
        return;
      }
      var paid;
      ok, paid := PaySeats(h, seats, payout, total, copy, r);
      if ok {
        AddedIsAccrue(old(accrual), Credits(r, |seats|), accrual);
        RoundFits(r, payout);
        pool := pool - paid;
      }
    }

    /** The reward distribution of boundary h. */
    method SettleRewards(h: nat) returns (ok: bool)
      requires IsBoundary(h) && RowsFit(accrual)
      modifies this`pool, this`accrual
      ensures ok <==> Settle(old(Abs()), h).Ok?
      ensures ok ==> Abs() == Settle(old(Abs()), h).value
    {
      hide Sum, Overflows, Credits, TotalPower, Settle, RowsFit, SeatsOk, Accrue;
      SettleOutcome(Abs(), h);
      var payout := pool / REWARD_DIVISOR;
      if payout == 0 { return true; }
      if h - EPOCH !in snapshots || snapshots[h - EPOCH] == [] { return false; }
      var copy := if SourceCopy(h) in copies then copies[SourceCopy(h)] else Copy(map[], map[]);
      ok := PayRound(h, snapshots[h - EPOCH], payout, copy, RoundAt(Abs(), h));
    }

    // ── payday ────────────────────────────────────────────────────────

    /** One unlocked coin per accrual row. */
    method PayRows(h: nat) returns (ok: bool)
      modifies this`coins
      ensures ok <==> forall k :: k in accrual ==> PaydayOut(h, k) !in old(coins)
      ensures ok ==> coins == old(coins) + PaydayCoins(h, accrual)
    {
      hide PaydayCoins, PaidSoFar;
      var todo := accrual;
      NothingPaid(h, coins, accrual);
      while todo != map[]
        invariant todo.Keys <= accrual.Keys
        invariant forall k :: k in todo ==> todo[k] == accrual[k]
        invariant PaidSoFar(h, old(coins), accrual, todo, coins)
        decreases |todo|
      {
        var k :| k in todo;
        PayNext(h, old(coins), accrual, todo, coins, k);
        if PaydayOut(h, k) in coins { return false; }
        coins := coins[PaydayOut(h, k) := Coin(k, todo[k], 0, Plain)];
        assert (todo - {k}).Keys == todo.Keys - {k};
        todo := todo - {k};
      }
      AllPaid(h, old(coins), accrual, coins);
      return true;
    }

    method PayAccruals(h: nat) returns (ok: bool)
      modifies this`coins, this`accrual
      ensures ok <==> Payday(old(Abs()), h).Ok?
      ensures ok ==> Abs() == Payday(old(Abs()), h).value
    {
      hide PaydayCoins;
      if h / EPOCH % params.payoutInterval != 0 { return true; }
      ok := PayRows(h);
      accrual := map[];
    }

    // ── graduation ────────────────────────────────────────────────────

    /** The delegations of one graduate, each back to its delegator. */
    method ReleaseStakes(h: nat, v: Key) returns (ok: bool, released: nat)
      modifies this`coins
      ensures ok <==> StakesFree(old(coins), h, v, delegations)
      ensures ok ==> coins == Freed(old(coins), h, v, delegations) && released == StakeSum(delegations, v)
    {
      hide Sum, ReleaseCoins, ReleasedSoFar;
      var rows := StakesOn(delegations, v);
      released := 0;
      var todo := rows;
      NothingReleased(h, v, coins, rows);
      while todo != map[]
        invariant todo.Keys <= rows.Keys
        invariant forall d :: d in todo ==> todo[d] == rows[d]
        invariant ReleasedSoFar(h, v, old(coins), rows, todo, coins)
        invariant released + Sum(todo) == Sum(rows)
        decreases |todo|
      {
        var d :| d in todo;
        ReleaseNext(h, v, old(coins), rows, todo, coins, d);
        if DelegationOut(h, Pair(v, d)) in coins { return false, 0; }
        coins := coins[DelegationOut(h, Pair(v, d)) :=
                       Coin(d, todo[d], h + UNDELEGATE_LOCK_EPOCHS * EPOCH, FromStake(Pair(v, d)))];
        SumRemove(todo, d);
        released := released + todo[d];
        assert (todo - {d}).Keys == todo.Keys - {d};
        todo := todo - {d};
      }
      SumZero(todo);
      AllReleased(h, v, old(coins), rows, coins);
      return true, released;
    }

    /** The bond and every remaining delegation leave, and the row empties. */
    method GraduateRow(h: nat, v: Key) returns (ok: bool)
      requires v in validators
      modifies this`coins, this`validators, this`delegations, this`activeCount
      ensures ok <==> GraduateOne(old(Abs()), h, v).Ok?
      ensures ok ==> Abs() == GraduateOne(old(Abs()), h, v).value
    {
      hide StakeSum, StakesFree, Freed;
      var row := validators[v];
      if BondOut(h, v) in coins { return false; }
      FreeOfBond(coins, h, v, delegations, BondCoin(h, v, row));
      coins := coins[BondOut(h, v) := BondCoin(h, v, row)];
      var released;
      ok, released := ReleaseStakes(h, v);
      if !ok || released != row.totalDelegated || released != row.externalDelegated
         || (row.status.Retiring? && activeCount == 0) { return false; }
      delegations := map p | p in delegations && p.validator != v :: delegations[p];
      validators := validators[v := row.(status := Unstaked, selfStake := 0,
                                         totalDelegated := 0, externalDelegated := 0)];
      if row.status.Retiring? { activeCount := activeCount - 1; }
    }

    /** Key ascending; a seat of the set taking effect is left for a later
        boundary. */
    method GraduateScan(h: nat, scan: set<Key>, ghost leaving: set<Key>) returns (ok: bool)
      requires h in snapshots && leaving <= scan <= validators.Keys
      requires forall v :: v in scan ==> (v in leaving <==> v !in SeatKeys(snapshots[h]))
      modifies this`coins, this`validators, this`delegations, this`activeCount
      ensures ok <==> GraduateAll(old(Abs()), h, leaving).Ok?
      ensures ok ==> Abs() == GraduateAll(old(Abs()), h, leaving).value
    {
      hide GraduateOne, SeatKeys;
      var todo := scan;
      assert leaving * todo == leaving;
      while todo != {}
        invariant todo <= scan
        invariant GraduateAll(old(Abs()), h, leaving) == GraduateAll(Abs(), h, leaving * todo)
        decreases todo
      {
        var v := LeastOf(todo);
        var seated := IsSeat(snapshots[h], v);
        if seated {
          assert leaving * (todo - {v}) == leaving * todo;
        } else {
          LeastWithin(leaving * todo, todo);
          assert leaving * (todo - {v}) == leaving * todo - {v};
          if v !in validators { return false; }
          ok := GraduateRow(h, v);
          if !ok { return; }
        }
        todo := todo - {v};
      }
      assert leaving * todo == {};
      return true;
    }

    method GraduateRows(h: nat) returns (ok: bool)
      modifies this`coins, this`validators, this`delegations, this`activeCount
      ensures ok <==> Graduate(old(Abs()), h).Ok?
      ensures ok ==> Abs() == Graduate(old(Abs()), h).value
    {
      hide GraduateAll, SeatKeys;
      if h !in snapshots || snapshots[h] == [] { return false; }
      var scan := set v | v in validators && Leaving(validators[v].status);
      assert scan == Exiting(validators);
      if |scan| > 2 * MAX_VALIDATORS { return false; }
      ok := GraduateScan(h, scan, Graduates(Abs(), h));
    }

    // ── seating ───────────────────────────────────────────────────────

    /** The set for the epoch that starts at `eStart`: every bonded, tenured
        row with stake in copy(eStart - 2E), sorted, the first seats taken. */
    method SelectCommittee(eStart: nat, tb: Tiebreak) returns (out: seq<Entry>)
      requires eStart >= 2 * EPOCH
      ensures out == CommitteeFor(Abs(), eStart, tb)
    {
      hide Sum, SortedSeats;
      if eStart - 2 * EPOCH !in copies { return []; }
      var c := copies[eStart - 2 * EPOCH];
      var work: seq<Entry> := [];
      var todo := set v | v in validators && Bonded(validators[v].status);
      ghost var done := {};
      NoSeatsSorted(Abs(), eStart, c, tb);
      while todo != {}
        invariant done == Candidates(Abs(), eStart, c) - todo
        invariant forall v :: v in todo ==> v in validators && Bonded(validators[v].status)
        invariant SortedSeats(validators, c, tb, done, work)
        decreases todo
      {
        var v :| v in todo;
        var row := validators[v];
        if row.activeSince + MIN_TENURE <= eStart || row.activeSince <= 1 {
          var sum := SumRows(StakesOn(c.stakes, v));
          var bond := At(c.bonds, v);
          if bond + sum > 0 {
            work := Insert(validators, c, tb, done, work, Entry(v, bond + sum, bond, row.commission));
            done := done + {v};
          }
        }
        todo := todo - {v};
      }
      out := work[..if params.seats < |work| then params.seats else |work|];
      assert done == Candidates(Abs(), eStart, c);
      SeatsRanked(Abs(), eStart, c, tb, work);
    }

    // ── Rule N ────────────────────────────────────────────────────────

    /** Every bonded row: one more miss when it had a duty and missed the
        bar, zero otherwise. */
    method RecountMisses(h: nat)
      requires h >= EPOCH && h - EPOCH in snapshots
      modifies this`validators
      ensures Abs() == Recount(old(Abs()), h)
    {
      hide SeatKeys, MeetsBar;
      var duty := snapshots[h - EPOCH];
      var todo := set v | v in validators && Bonded(validators[v].status);
      ghost var s := Abs();
      while todo != {}
        invariant todo <= s.validators.Keys == validators.Keys
        invariant forall v :: v in todo ==> validators[v] == s.validators[v] && Bonded(s.validators[v].status)
        invariant forall v :: v in validators && v !in todo ==> validators[v] == Recounted(s, h, v)
        decreases todo
      {
        var v :| v in todo;
        var row := validators[v];
        var onDuty := IsSeat(duty, v);
        var charged := onDuty && row.status.Active? && !MeetsBar(attendance, v, h);
        validators := validators[v := row.(missed := if charged then row.missed + 1 else 0)];
        todo := todo - {v};
      }
      assert validators == Recount(s, h).validators;
    }

    /** All due rows retire together, provisionally; when the set they leave
        behind would not clear the floor, the rows are put back. */
    method RetireRows(h: nat, tb: Tiebreak) returns (ok: bool)
      requires h >= EPOCH
      modifies this`validators, this`activeCount
      ensures ok <==> RetireDue(old(Abs()), h, tb).Ok?
      ensures ok ==> Abs() == RetireDue(old(Abs()), h, tb).value
    {
      hide CommitteeFor, Allowed;
      var due := set v | v in validators && validators[v].status.Active? && validators[v].missed >= AUTO_RETIRE_EPOCHS;
      assert due == Due(validators);
      if due == {} { return true; }
      var saved := validators;
      validators := map v | v in validators :: if v in due then validators[v].(status := AutoRetired) else validators[v];
      assert Abs() == Retire(old(Abs()));
      var next := SelectCommittee(h + EPOCH, tb);
      var allowed := ClearsWeight(next);
      if !allowed {
        validators := saved;
        return true;
      }
      if activeCount < |due| { return false; }
      activeCount := activeCount - |due|;
      return true;
    }

    method ApplyRuleN(h: nat, tb: Tiebreak) returns (ok: bool)
      requires h >= EPOCH
      modifies this`validators, this`activeCount
      ensures ok <==> RuleN(old(Abs()), h, tb).Ok?
      ensures ok ==> Abs() == RuleN(old(Abs()), h, tb).value
    {
      hide RetireDue, Recount;
      if h - EPOCH !in snapshots || snapshots[h - EPOCH] == [] { return false; }
      var bonded := set v | v in validators && Bonded(validators[v].status);
      assert bonded == BondedKeys(validators);
      if |bonded| > MAX_VALIDATORS { return false; }
      RecountMisses(h);
      ok := RetireRows(h, tb);
    }

    // ── commissions, flips, snapshot, copy ────────────────────────────

    method ActivatePending(h: nat)
      modifies this`validators
      ensures Abs() == ActivateCommissions(old(Abs()), h)
    {
      validators := map v | v in validators ::
        var row := validators[v];
        if row.pendingEffective != 0 && row.pendingEffective <= h && row.pendingCommission != 0
        then row.(commission := row.pendingCommission, pendingCommission := 0, pendingEffective := 0)
        else row;
      assert validators == ActivateCommissions(old(Abs()), h).validators;
    }

    /** Pass 2 of the flips: walks the snapshot and promotes only rows that
        are ELIGIBLE, so a row that has since left is not brought back. */
    method PromoteSeats(seats: seq<Entry>)
      requires forall v :: v in validators ==> !validators[v].status.Active?
      modifies this`validators
      ensures validators.Keys == old(validators.Keys)
      ensures forall v :: v in validators ==>
        validators[v] == if old(validators)[v].status.Eligible? && v in SeatKeys(seats)
                         then old(validators)[v].(status := Active) else old(validators)[v]
    {
      for i := 0 to |seats|
        invariant validators.Keys == old(validators.Keys)
        invariant forall v :: v in validators ==>
          validators[v] == if old(validators)[v].status.Eligible? && v in SeatKeys(seats[..i])
                           then old(validators)[v].(status := Active) else old(validators)[v]
      {
        var k := seats[i].key;
        assert SeatKeys(seats[..i + 1]) == SeatKeys(seats[..i]) + {k} by { SeatKeysGrow(seats, i); }
        if k in validators && validators[k].status.Eligible? {
          validators := validators[k := validators[k].(status := Active)];
        }
      }
      assert seats[..|seats|] == seats;
    }

    /** Pass 1 sends every bonded row to ELIGIBLE, pass 2 the seats of the set
        taking effect to ACTIVE. */
    method ApplyFlips(h: nat)
      modifies this`validators
      ensures Abs() == Flip(old(Abs()), h)
    {
      hide SeatKeys;
      if h !in snapshots { return; }
      validators := map v | v in validators ::
        if Bonded(validators[v].status) then validators[v].(status := Eligible) else validators[v];
      PromoteSeats(snapshots[h]);
      assert validators == Flip(old(Abs()), h).validators;
    }

    method StoreNext(h: nat, tb: Tiebreak) returns (ok: bool)
      requires h >= EPOCH
      modifies this`snapshots
      ensures ok <==> CommitNext(old(Abs()), h, tb).Ok?
      ensures ok ==> Abs() == CommitNext(old(Abs()), h, tb).value
    {
      hide CommitteeFor;
      var next := SelectCommittee(h + EPOCH, tb);
      if next == [] || (h + EPOCH in snapshots && snapshots[h + EPOCH] != next) { return false; }
      snapshots := snapshots[h + EPOCH := next];
      return true;
    }

    /** copy(h) holds every bond and every delegation as it stands; of the
        earlier copies exactly those of the last two epochs survive, as they
        were. A copy is never written twice. */
    method FreezeBalances(h: nat) returns (ok: bool)
      modifies this`copies
      ensures ok <==> h !in old(copies)
      ensures !ok ==> copies == old(copies)
      ensures ok ==>
        && h in copies && copies[h].stakes == delegations
        && (forall v :: At(copies[h].bonds, v) == if v in validators then validators[v].selfStake else 0)
        && (forall b :: b in copies <==> b == h || (b in old(copies) && h <= b + 2 * EPOCH))
        && (forall b :: b in copies && b != h ==> copies[b] == old(copies)[b])
      ensures ok <==> WriteCopy(old(Abs()), h).Ok?
      ensures ok ==> Abs() == WriteCopy(old(Abs()), h).value
    {
      if h in copies { return false; }
      var bonds := map v | v in validators && validators[v].selfStake != 0 :: validators[v].selfStake;
      copies := copies[h := Copy(bonds, delegations)];
      copies := map b | b in copies && b + 2 * EPOCH >= h :: copies[b];
      return true;
    }

    /** Steps 1 to 2 of the boundary. */
    method OpenBoundary(h: nat) returns (ok: bool)
      requires IsBoundary(h) && RowsFit(accrual)
      modifies this
      ensures ok <==> Open(old(Abs()), h).Ok?
      ensures ok ==> Abs() == Open(old(Abs()), h).value
    {
      hide ActivateCommissions, Settle, Payday, Graduate;
      ActivatePending(h);
      ok := SettleRewards(h);
      if !ok { return; }
      ok := PayAccruals(h);
      if !ok { return; }
      ok := GraduateRows(h);
    }

    /** Steps 3c to 6. */
    method CloseBoundary(h: nat, tb: Tiebreak) returns (ok: bool)
      requires h >= EPOCH
      modifies this
      ensures ok <==> Close(old(Abs()), h, tb).Ok?
      ensures ok ==> Abs() == Close(old(Abs()), h, tb).value
    {
      hide Flip, CommitNext, WriteCopy;
      attendance := map v | v in attendance :: attendance[v].(signed := 0);
      ApplyFlips(h);
      ok := StoreNext(h, tb);
      if !ok { return; }
      ok := FreezeBalances(h);
    }

    /** The boundary of block h, in order; a step that fails faults it. */
    method ApplyBoundary(h: nat, tb: Tiebreak) returns (ok: bool)
      requires IsBoundary(h) && RowsFit(accrual)
      modifies this
      ensures ok <==> RunBoundary(old(Abs()), h, tb).Ok?
      ensures ok ==> Abs() == RunBoundary(old(Abs()), h, tb).value
    {
      hide Open, RuleN, Close;
      ok := OpenBoundary(h);
      if !ok { return; }
      ok := ApplyRuleN(h, tb);
      if !ok { return; }
      ok := CloseBoundary(h, tb);
    }

    // ── items ─────────────────────────────────────────────────────────

    /** The CORE leg: inputs checked and spent, outputs created, the fee to
        the pool. */
    method PayFunding(h: nat, f: Funding, minOut: nat, need: nat) returns (ok: bool)
      modifies this`coins, this`pool
      ensures ok <==> FundingOk(old(coins), h, f, minOut, need)
      ensures coins == if ok then Moved(old(coins), f) else old(coins)
      ensures pool == if ok then old(pool) + f.fee else old(pool)
    {
      hide InSum, OutputsOk, InputsOk;
      if !(1 <= |f.inputs| <= MAX_INPUTS && minOut <= |f.outputs| <= MAX_OUTPUTS && f.fee >= MIN_FEE) { return false; }
      var inOk, total := CheckInputs(coins, h, f);
      if !inOk { return false; }
      var outOk, out, made := CheckOutputs(coins, f.outputs);
      if !outOk || total != out + f.fee + need { return false; }
      coins := coins - f.inputs + made;
      pool := pool + f.fee;
      return true;
    }

    method ApplyStake(h: nat, t: Tx) returns (ok: bool)
      requires t.Stake?
      modifies this`coins, this`pool, this`validators, this`activeCount
      ensures ok <==> ExecStake(old(Abs()), h, t).Applied?
      ensures ok ==> Abs() == ExecStake(old(Abs()), h, t).state
    {
      hide FundingOk, Moved;
      ok := PayFunding(h, t.f, 0, t.bond);
      if !ok || t.signer != t.staker || t.commission > COMMISSION_MAX
         || !(params.bondMin <= t.bond <= params.bondMax) { return false; }
      if t.staker in validators {
        var v := validators[t.staker];
        if !v.status.Unstaked? || v.selfStake != 0 || v.totalDelegated != 0 || v.externalDelegated != 0 { return false; }
      }
      if activeCount + 1 > MAX_VALIDATORS { return false; }
      validators := validators[t.staker := Validator(Active, t.bond, 0, 0, t.commission, 0, 0, h, t.destination, 0)];
      activeCount := activeCount + 1;
    }

    method ApplyUnstake(h: nat, t: Tx) returns (ok: bool)
      requires t.Unstake?
      modifies this`coins, this`pool, this`validators
      ensures ok <==> ExecUnstake(old(Abs()), h, t).Applied?
      ensures ok ==> Abs() == ExecUnstake(old(Abs()), h, t).state
    {
      hide FundingOk, Moved;
      ok := PayFunding(h, t.f, 0, 0);
      if !ok || t.signer != t.validator || t.validator !in validators { return false; }
      if !Bonded(validators[t.validator].status) { return false; }
      validators := validators[t.validator := validators[t.validator].(status := Retiring)];
    }

    method ApplyDelegate(h: nat, t: Tx) returns (ok: bool)
      requires t.Delegate?
      modifies this`coins, this`pool, this`validators, this`delegations
      ensures ok <==> ExecDelegate(old(Abs()), h, t).Applied?
      ensures ok ==> Abs() == ExecDelegate(old(Abs()), h, t).state
    {
      hide FundingOk, Moved, DelegatorCount;
      ok := PayFunding(h, t.f, 0, t.amount);
      if !ok || t.signer != t.pair.delegator || !(1 <= t.amount <= TOTAL_SUPPLY)
         || t.pair.validator !in validators { return false; }
      var v := validators[t.pair.validator];
      if !Bonded(v.status) { return false; }
      if t.pair !in delegations
         && (t.amount < MIN_DELEGATION || DelegatorCount(delegations, t.pair.validator) >= MAX_DELEGATORS) { return false; }
      validators := validators[t.pair.validator := v.(totalDelegated := v.totalDelegated + t.amount,
                                                      externalDelegated := v.externalDelegated + t.amount)];
      delegations := delegations[t.pair := At(delegations, t.pair) + t.amount];
    }

    method ApplyUndelegate(h: nat, t: Tx) returns (ok: bool)
      requires t.Undelegate?
      modifies this`coins, this`pool, this`validators, this`delegations
      ensures ok <==> ExecUndelegate(old(Abs()), h, t).Applied?
      ensures ok ==> Abs() == ExecUndelegate(old(Abs()), h, t).state
    {
      hide FundingOk, Moved, PowerExit;
      if UndelegateOut(t.intent) in coins { return false; }
      ok := PayFunding(h, t.f, 0, 0);
      if !ok || t.signer != t.pair.delegator || t.pair !in delegations || t.pair.validator !in validators { return false; }
      if !(1 <= t.amount <= delegations[t.pair]) { return false; }
      var left, v := delegations[t.pair] - t.amount, validators[t.pair.validator];
      if 0 < left < MIN_DELEGATION || v.totalDelegated < t.amount || v.externalDelegated < t.amount { return false; }
      MoveOut(t.pair, left, v.(totalDelegated := v.totalDelegated - t.amount,
                               externalDelegated := v.externalDelegated - t.amount),
              UndelegateOut(t.intent),
              Coin(t.pair.delegator, t.amount, PowerExit(h) + UNDELEGATE_LOCK_EPOCHS * EPOCH, FromStake(t.pair)));
    }

    /** Part of a position leaves into a locked coin; an emptied position is
        deleted. */
    method MoveOut(p: Pair, left: nat, row: Validator, id: CoinId, release: Coin)
      modifies this`coins, this`validators, this`delegations
      ensures coins == old(coins)[id := release] && validators == old(validators)[p.validator := row]
      ensures delegations == if left == 0 then old(delegations) - {p} else old(delegations)[p := left]
    {
      coins := coins[id := release];
      validators := validators[p.validator := row];
      if left == 0 { delegations := delegations - {p}; } else { delegations := delegations[p := left]; }
    }

    method ApplySetCommission(h: nat, t: Tx) returns (ok: bool)
      requires t.SetCommission?
      modifies this`coins, this`pool, this`validators
      ensures ok <==> ExecSetCommission(old(Abs()), h, t).Applied?
      ensures ok ==> Abs() == ExecSetCommission(old(Abs()), h, t).state
    {
      hide FundingOk, Moved;
      ok := PayFunding(h, t.f, 0, 0);
      if !ok || t.signer != t.validator || t.bps > COMMISSION_MAX || t.validator !in validators { return false; }
      var v := validators[t.validator];
      if !Counted(v.status) { return false; }
      if t.bps > v.commission {
        v := v.(pendingCommission := t.bps, pendingEffective := h + 2 * EPOCH);
      } else {
        v := v.(commission := t.bps, pendingCommission := 0, pendingEffective := 0);
      }
      validators := validators[t.validator := v];
    }

    method ApplyClaim(t: Tx) returns (ok: bool)
      requires t.Claim?
      modifies this`coins, this`allocations
      ensures ok <==> ExecClaim(old(Abs()), t).Applied?
      ensures ok ==> Abs() == ExecClaim(old(Abs()), t).state
    {
      if t.claim !in allocations || ClaimOut(t.claim) in coins { return false; }
      var a := allocations[t.claim];
      if a.amount == 0 { return false; }
      coins := coins[ClaimOut(t.claim) := Coin(a.owner, a.amount, 0, Plain)];
      allocations := allocations - {t.claim};
      return true;
    }

    method ApplyLeg(h: nat, t: Tx) returns (ok: bool)
      modifies this
      ensures ok <==> Exec(old(Abs()), h, t).Applied?
      ensures ok ==> Abs() == Exec(old(Abs()), h, t).state
    {
      hide ExecStake, ExecUnstake, ExecDelegate, ExecUndelegate, ExecSetCommission, ExecClaim, FundingOk, Moved;
      match t
      case Spend(f) => ok := PayFunding(h, f, 1, 0);
      case Burn(f, amount) =>
        if amount < 1 { return false; }
        ok := PayFunding(h, f, 0, amount);
        burned := burned + amount;
      case Stake(_, _, _, _, _, _) => ok := ApplyStake(h, t);
      case Unstake(_, _, _) => ok := ApplyUnstake(h, t);
      case Delegate(_, _, _, _) => ok := ApplyDelegate(h, t);
      case Undelegate(_, _, _, _, _) => ok := ApplyUndelegate(h, t);
      case SetCommission(_, _, _, _) => ok := ApplySetCommission(h, t);
      case Claim(_) => ok := ApplyClaim(t);
    }

    method RestoreMoney(s: State)
      modifies this`height, this`genesisSupply, this`burned, this`pool, this`coins, this`accrual, this`allocations, this`reserves
      ensures height == s.height && genesisSupply == s.genesisSupply && burned == s.burned && pool == s.pool
      ensures coins == s.coins && accrual == s.accrual && allocations == s.allocations && reserves == s.reserves
    {
      height := s.height;
      genesisSupply := s.genesisSupply;
      burned := s.burned;
      pool := s.pool;
      coins := s.coins;
      accrual := s.accrual;
      allocations := s.allocations;
      reserves := s.reserves;
    }

    /** Rolls the tables back to a state read before. */
    method Restore(s: State)
      requires s.params == params
      modifies this
      ensures Abs() == s
    {
      RestoreMoney(s);
      validators := s.validators;
      delegations := s.delegations;
      activeCount := s.activeCount;
      copies := s.copies;
      snapshots := s.snapshots;
      attendance := s.attendance;
    }

    /** One item inside its savepoint: a leg that refuses may have written,
        and everything it wrote is rolled back. */
    method ApplyTx(h: nat, t: Tx) returns (applied: bool)
      modifies this
      ensures Abs() == ApplyItem(old(Abs()), h, t)
      ensures applied <==> Exec(old(Abs()), h, t).Applied?
      ensures applied <==> Acceptance.Acceptable(old(Abs()), h, t)
    {
      hide Exec, Acceptance.Acceptable;
      Acceptance.AppliedIff(Abs(), h, t);
      var saved := Abs();
      applied := ApplyLeg(h, t);
      if !applied { Restore(saved); }
    }

    // ── blocks ────────────────────────────────────────────────────────

    method CreditVotes(h: nat, votes: seq<Vote>)
      requires h > 0
      modifies this`attendance
      ensures attendance == Credit(old(attendance), h, votes)
    {
      for i := 0 to |votes|
        invariant attendance == Credit(old(attendance), h, votes[..i])
      {
        assert votes[..i + 1][..i] == votes[..i];
        var v := votes[i];
        if v.commit {
          var signed := if v.voter in attendance then attendance[v.voter].signed else 0;
          attendance := attendance[v.voter := Attendance(signed + 1, h - 1)];
        }
      }
      assert votes[..|votes|] == votes;
    }

    method ApplyTxs(h: nat, items: seq<Tx>)
      modifies this
      ensures Abs() == ApplyItems(old(Abs()), h, items)
    {
      hide ApplyItem;
      var i := 0;
      while i < |items|
        invariant 0 <= i <= |items|
        invariant ApplyItems(old(Abs()), h, items) == ApplyItems(Abs(), h, items[i..])
      {
        var applied := ApplyTx(h, items[i]);
        assert items[i..][0] == items[i] && items[i..][1..] == items[i + 1..];
        i := i + 1;
      }
    }

    /** One decided block in one transaction: items, attendance, the boundary
        when the height is one. A boundary that faults leaves the tables as
        the block found them. */
    method Commit(b: Block) returns (ok: bool)
      requires Invariant.Inv(Abs())
      modifies this
      ensures Invariant.Inv(Abs())
      ensures ok <==> ApplyBlock(old(Abs()), b).Ok?
      ensures Abs() == if ok then ApplyBlock(old(Abs()), b).value else old(Abs())
    {
      hide Invariant.Inv, RunBoundary, ApplyItems, RowsFit;
      ghost var s := Abs();
      var saved, h := Abs(), height + 1;
      ApplyTxs(h, b.items);
      CreditVotes(h, b.votes);
      assert Abs() == BeforeBoundary(s, b);
      BeforeKeeps(s, b);
      ok := true;
      if h % EPOCH == 0 {
        AccrualsFit(Abs());
        ok := ApplyBoundary(h, b.tb);
      }
      if ok {
        height := h;
        assert ApplyBlock(s, b) == Ok(Abs());
        BlockKeeps(s, b);
      } else {
        Restore(saved);
      }
    }
  }

  lemma AccrualsFit(s: State)
    requires Invariant.Inv(s)
    ensures RowsFit(s.accrual)
  {
    hide Invariant.RowsOk, Invariant.CountOk, Invariant.CopiesOk, Invariant.SnapshotsOk, Sum;
    forall k | k in s.accrual ensures s.accrual[k] <= STORE_MAX { BoundaryProofs.AccrualFits(s, k); }
  }

  lemma SeatKeysGrow(seats: seq<Entry>, i: nat)
    requires i < |seats|
    ensures SeatKeys(seats[..i + 1]) == SeatKeys(seats[..i]) + {seats[i].key}
  {
    forall k ensures k in SeatKeys(seats[..i + 1]) <==> k in SeatKeys(seats[..i]) + {seats[i].key} {
      if k in SeatKeys(seats[..i + 1]) {
        var j :| 0 <= j < i + 1 && seats[..i + 1][j].key == k;
        if j < i { assert seats[..i][j].key == k; }
      }
      if k in SeatKeys(seats[..i]) {
        var j :| 0 <= j < i && seats[..i][j].key == k;
        assert seats[..i + 1][j].key == k;
      }
      assert seats[..i + 1][i].key == seats[i].key;
    }
  }

  /** Every input exists, is unlocked at h and belongs to a signer. */
  method CheckInputs(coins: map<CoinId, Coin>, h: nat, f: Funding) returns (ok: bool, total: nat)
    ensures ok <==> InputsOk(coins, h, f)
    ensures ok ==> total == InSum(coins, f.inputs)
  {
    hide Sum;
    total := 0;
    var todo := f.inputs;
    ghost var left := map c | c in Amounts(coins) && c in f.inputs :: Amounts(coins)[c];
    while todo != {}
      invariant todo <= f.inputs
      invariant forall c :: c in f.inputs && c !in todo ==> c in coins && coins[c].unlock < h && coins[c].owner in f.signers
      invariant forall c :: c in left <==> c in coins && c in todo
      invariant forall c :: c in left ==> left[c] == coins[c].amount
      invariant total + Sum(left) == InSum(coins, f.inputs)
      decreases todo
    {
      var c :| c in todo;
      if c !in coins || coins[c].unlock >= h || coins[c].owner !in f.signers { return false, 0; }
      SumRemove(left, c);
      total := total + coins[c].amount;
      todo, left := todo - {c}, left - {c};
    }
    SumZero(left);
    return true, total;
  }

  /** No output is zero, named twice, or already there. */
  method CheckOutputs(coins: map<CoinId, Coin>, outs: seq<Output>)
    returns (ok: bool, total: nat, made: map<CoinId, Coin>)
    ensures ok <==> OutputsOk(outs) && Minted(outs).Keys !! coins.Keys
    ensures ok ==> total == OutSum(outs) && made == Minted(outs)
  {
    ok, total, made := true, 0, map[];
    for i := 0 to |outs|
      invariant ok && OutputsOk(outs[..i]) && made == Minted(outs[..i]) && total == OutSum(outs[..i])
      invariant made.Keys !! coins.Keys
    {
      var o := outs[i];
      assert outs[..i + 1][..i] == outs[..i];
      OutputsPrefix(outs, i + 1);
      if o.amount == 0 || IdOf(o) in made || IdOf(o) in coins {
        assert IdOf(o) in Minted(outs[..i + 1]);
        return false, 0, map[];
      }
      made := made[IdOf(o) := Coin(o.owner, o.amount, 0, Plain)];
      total := total + o.amount;
    }
    assert outs[..|outs|] == outs;
  }

  lemma {:induction false} OutputsPrefix(outs: seq<Output>, n: nat)
    requires n <= |outs|
    ensures OutputsOk(outs) ==> OutputsOk(outs[..n])
    ensures Minted(outs[..n]).Keys <= Minted(outs).Keys
  {
    if n == |outs| {
      assert outs[..n] == outs;
    } else {
      var head := outs[..|outs| - 1];
      OutputsPrefix(head, n);
      assert head[..n] == outs[..n];
    }
  }

  /** (P - max) > P * 2 / 3 over the voting powers of a set. */
  method ClearsWeight(seats: seq<Entry>) returns (allowed: bool)
    ensures allowed <==> Allowed(seats)
  {
    if seats == [] { return false; }
    var total, max := 0, 0;
    for i := 0 to |seats|
      invariant total == SumSeq(Powers(seats)[..i]) && max == Largest(Powers(seats)[..i])
    {
      assert Powers(seats)[..i + 1][..i] == Powers(seats)[..i];
      var p := Power(seats[i]);
      total := total + p;
      if p > max { max := p; }
    }
    assert Powers(seats)[..|seats|] == Powers(seats);
    LargestBounds(Powers(seats));
    return total > 0 && total - max > total * 2 / 3;
  }

  function KeysOf(work: seq<Entry>): (r: seq<Key>)
    ensures |r| == |work| && forall i :: 0 <= i < |r| ==> r[i] == work[i].key
  {
    seq(|work|, i requires 0 <= i < |work| => work[i].key)
  }

  /** `work` lists the seats of `done`, best first. */
  ghost predicate SortedSeats(vals: map<Key, Validator>, c: Copy, tb: Tiebreak, done: set<Key>, work: seq<Entry>) {
    (forall i :: 0 <= i < |work| ==> work[i] == SeatOf(vals, c, work[i].key))
    && Listed(Score(c), tb, KeysOf(work), done)
  }

  lemma NoSeatsSorted(s: State, eStart: nat, c: Copy, tb: Tiebreak)
    ensures SortedSeats(s.validators, c, tb, {}, [])
    ensures Candidates(s, eStart, c) <= set v | v in s.validators && Bonded(s.validators[v].status)
  {
  }

  /** Frozen total descending, tie-break ascending, key ascending. */
  predicate Precedes(a: Entry, b: Entry, tb: Tiebreak) {
    a.total > b.total
    || (a.total == b.total && (tb(a.key) < tb(b.key) || (tb(a.key) == tb(b.key) && a.key.id <= b.key.id)))
  }

  method Insert(ghost vals: map<Key, Validator>, ghost c: Copy, tb: Tiebreak, ghost done: set<Key>, work: seq<Entry>, e: Entry)
    returns (r: seq<Entry>)
    requires SortedSeats(vals, c, tb, done, work) && e == SeatOf(vals, c, e.key) && e.key !in done
    ensures SortedSeats(vals, c, tb, done + {e.key}, r)
  {
    hide SortedSeats, SeatOf;
    var i := 0;
    while i < |work| && Precedes(work[i], e, tb)
      invariant 0 <= i <= |work|
      invariant forall j :: 0 <= j < i ==> Precedes(work[j], e, tb)
    {
      i := i + 1;
    }
    r := work[..i] + [e] + work[i..];
    Inserted(vals, c, tb, done, work, e, i);
  }

  lemma PrecedesIs(vals: map<Key, Validator>, c: Copy, tb: Tiebreak, a: Entry, b: Entry)
    requires a == SeatOf(vals, c, a.key) && b == SeatOf(vals, c, b.key)
    ensures Precedes(a, b, tb) ==> Before(Score(c), tb, a.key, b.key)
    ensures !Precedes(a, b, tb) ==> Before(Score(c), tb, b.key, a.key)
  {
  }

  lemma Inserted(vals: map<Key, Validator>, c: Copy, tb: Tiebreak, done: set<Key>, work: seq<Entry>, e: Entry, i: nat)
    requires SortedSeats(vals, c, tb, done, work) && e == SeatOf(vals, c, e.key) && e.key !in done && i <= |work|
    requires forall j :: 0 <= j < i ==> Precedes(work[j], e, tb)
    requires i < |work| ==> !Precedes(work[i], e, tb)
    ensures SortedSeats(vals, c, tb, done + {e.key}, work[..i] + [e] + work[i..])
  {
    hide SeatOf, Precedes, Before, Score;
    var r, keys := work[..i] + [e] + work[i..], KeysOf(work);
    forall j | 0 <= j < |work| && j <= i
      ensures if j < i then Before(Score(c), tb, keys[j], e.key) else Before(Score(c), tb, e.key, keys[j])
    {
      PrecedesIs(vals, c, tb, work[j], e);
    }
    InsertSorted(Score(c), tb, keys, e.key, i);
    assert e.key !in keys by { assert forall k :: k in keys ==> k in SetOf(keys); }
    InsertDistinct(keys, e.key, i);
    assert KeysOf(r) == keys[..i] + [e.key] + keys[i..];
  }

  lemma SeatsRanked(s: State, eStart: nat, c: Copy, tb: Tiebreak, work: seq<Entry>)
    requires SortedSeats(s.validators, c, tb, Candidates(s, eStart, c), work)
    ensures CommitteeFrom(s, eStart, c, tb) == work[..if s.params.seats < |work| then s.params.seats else |work|]
  {
    hide Listed, Candidates, SeatOf;
    var n := if s.params.seats < |work| then s.params.seats else |work|;
    SortedIsRanked(Score(c), tb, KeysOf(work), Candidates(s, eStart, c), s.params.seats);
    assert SeatsOf(s.validators, c, KeysOf(work)[..n]) == work[..n];
  }

  /** The coins after the rows outside `todo` were paid. */
  ghost predicate PaidSoFar(h: nat, base: map<CoinId, Coin>, acc: map<Key, nat>, todo: map<Key, nat>, coins: map<CoinId, Coin>) {
    && coins == base + PaydayCoins(h, acc - todo.Keys)
    && forall k :: k in acc && k !in todo ==> PaydayOut(h, k) !in base
  }

  lemma NothingPaid(h: nat, base: map<CoinId, Coin>, acc: map<Key, nat>)
    ensures PaidSoFar(h, base, acc, acc, base)
  {
  }

  lemma PayNext(h: nat, base: map<CoinId, Coin>, acc: map<Key, nat>, todo: map<Key, nat>, coins: map<CoinId, Coin>, k: Key)
    requires k in todo && todo.Keys <= acc.Keys && todo[k] == acc[k] && PaidSoFar(h, base, acc, todo, coins)
    ensures PaydayOut(h, k) in coins <==> PaydayOut(h, k) in base
    ensures PaydayOut(h, k) !in coins ==>
              PaidSoFar(h, base, acc, todo - {k}, coins[PaydayOut(h, k) := Coin(k, todo[k], 0, Plain)])
  {
    var done := acc - todo.Keys;
    assert acc - (todo - {k}).Keys == done[k := acc[k]];
    MorePaid(h, done, k, acc[k]);
    UnionSet(base, PaydayCoins(h, done), PaydayOut(h, k), Coin(k, acc[k], 0, Plain));
  }

  lemma MorePaid(h: nat, m: map<Key, nat>, k: Key, x: nat)
    ensures PaydayCoins(h, m[k := x]) == PaydayCoins(h, m)[PaydayOut(h, k) := Coin(k, x, 0, Plain)]
  {
    var l, r := PaydayCoins(h, m[k := x]), PaydayCoins(h, m)[PaydayOut(h, k) := Coin(k, x, 0, Plain)];
    assert forall c :: c in l.Keys <==> c in r.Keys;
    forall c | c in l.Keys ensures l[c] == r[c] {}
  }

  lemma AllPaid(h: nat, base: map<CoinId, Coin>, acc: map<Key, nat>, coins: map<CoinId, Coin>)
    requires PaidSoFar(h, base, acc, map[], coins)
    ensures coins == base + PaydayCoins(h, acc)
    ensures forall k :: k in acc ==> PaydayOut(h, k) !in base
  {
    var none: map<Key, nat> := map[];
    assert acc - none.Keys == acc;
  }

  ghost predicate ReleasedSoFar(h: nat, v: Key, base: map<CoinId, Coin>, rows: map<Key, nat>, todo: map<Key, nat>, coins: map<CoinId, Coin>) {
    && coins == base + ReleaseCoins(h, v, rows - todo.Keys)
    && forall d :: d in rows && d !in todo ==> DelegationOut(h, Pair(v, d)) !in base
  }

  lemma NothingReleased(h: nat, v: Key, base: map<CoinId, Coin>, rows: map<Key, nat>)
    ensures ReleasedSoFar(h, v, base, rows, rows, base)
  {
  }

  lemma ReleaseNext(h: nat, v: Key, base: map<CoinId, Coin>, rows: map<Key, nat>, todo: map<Key, nat>, coins: map<CoinId, Coin>, d: Key)
    requires d in todo && todo.Keys <= rows.Keys && todo[d] == rows[d] && ReleasedSoFar(h, v, base, rows, todo, coins)
    ensures DelegationOut(h, Pair(v, d)) in coins <==> DelegationOut(h, Pair(v, d)) in base
    ensures DelegationOut(h, Pair(v, d)) !in coins ==>
              ReleasedSoFar(h, v, base, rows, todo - {d},
                            coins[DelegationOut(h, Pair(v, d)) :=
                                  Coin(d, todo[d], h + UNDELEGATE_LOCK_EPOCHS * EPOCH, FromStake(Pair(v, d)))])
  {
    var done := rows - todo.Keys;
    assert rows - (todo - {d}).Keys == done[d := rows[d]];
    MoreReleased(h, v, done, d, rows[d]);
    UnionSet(base, ReleaseCoins(h, v, done), DelegationOut(h, Pair(v, d)),
             Coin(d, rows[d], h + UNDELEGATE_LOCK_EPOCHS * EPOCH, FromStake(Pair(v, d))));
  }

  lemma MoreReleased(h: nat, v: Key, m: map<Key, nat>, d: Key, x: nat)
    ensures ReleaseCoins(h, v, m[d := x])
         == ReleaseCoins(h, v, m)[DelegationOut(h, Pair(v, d)) :=
              Coin(d, x, h + UNDELEGATE_LOCK_EPOCHS * EPOCH, FromStake(Pair(v, d)))]
  {
    var l := ReleaseCoins(h, v, m[d := x]);
    var r := ReleaseCoins(h, v, m)[DelegationOut(h, Pair(v, d)) :=
               Coin(d, x, h + UNDELEGATE_LOCK_EPOCHS * EPOCH, FromStake(Pair(v, d)))];
    assert forall c :: c in l.Keys <==> c in r.Keys;
    forall c | c in l.Keys ensures l[c] == r[c] {}
  }

  lemma FreeOfBond(coins: map<CoinId, Coin>, h: nat, v: Key, stakes: map<Pair, nat>, c: Coin)
    ensures StakesFree(coins[BondOut(h, v) := c], h, v, stakes) <==> StakesFree(coins, h, v, stakes)
  {
  }

  lemma AllReleased(h: nat, v: Key, base: map<CoinId, Coin>, rows: map<Key, nat>, coins: map<CoinId, Coin>)
    requires ReleasedSoFar(h, v, base, rows, map[], coins)
    ensures coins == base + ReleaseCoins(h, v, rows)
    ensures forall d :: d in rows ==> DelegationOut(h, Pair(v, d)) !in base
  {
    var none: map<Key, nat> := map[];
    assert rows - none.Keys == rows;
  }

  /** The smallest key of a set. */
  method LeastOf(ks: set<Key>) returns (k: Key)
    requires ks != {}
    ensures k in ks && k == Least(ks)
  {
    k :| k in ks;
    var todo := ks - {k};
    while todo != {}
      invariant k in ks && todo <= ks
      invariant forall x :: x in ks && x !in todo ==> k.id <= x.id
      decreases todo
    {
      var x :| x in todo;
      if x.id < k.id { k := x; }
      todo := todo - {x};
    }
    LeastIs(ks, k);
  }

  lemma LeastIs(ks: set<Key>, k: Key)
    requires k in ks && forall x :: x in ks ==> k.id <= x.id
    ensures k == Least(ks)
  {
    assert IsTop(_ => 0, (x: Key) => x.id, ks, k);
    TopUnique(_ => 0, (x: Key) => x.id, ks, k);
  }

  /** The least of a set is the least of any subset it belongs to. */
  lemma LeastWithin(sub: set<Key>, ks: set<Key>)
    requires ks != {} && Least(ks) in sub && sub <= ks
    ensures Least(sub) == Least(ks)
  {
    var k := Least(ks);
    forall x | x in sub ensures k.id <= x.id { LeastBelow(ks, x); }
    LeastIs(sub, k);
  }

  lemma LeastBelow(ks: set<Key>, x: Key)
    requires x in ks
    ensures Least(ks).id <= x.id
  {
    assert Before(_ => 0, (y: Key) => y.id, Least(ks), x);
  }

  method IsSeat(seats: seq<Entry>, v: Key) returns (found: bool)
    ensures found <==> v in SeatKeys(seats)
  {
    for i := 0 to |seats|
      invariant forall j :: 0 <= j < i ==> seats[j].key != v
    {
      if seats[i].key == v { return true; }
    }
    return false;
  }

  lemma RoundFits(r: Round, payout: nat)
    requires RoundOk(r) && TotalPower(r.seats) > 0 && r.shares == Shares(payout, r.seats)
    ensures Sum(Credits(r, |r.seats|)) <= payout
  {
    CreditsAtMost(r, |r.seats|);
    assert r.shares[..|r.seats|] == r.shares;
    SharesFitPayout(payout, r.seats);
  }

  lemma SumSeqEmpty()
    ensures SumSeq([]) == 0
  {
  }

  lemma PowersStep(seats: seq<Entry>, i: nat)
    requires i < |seats|
    ensures SumSeq(Powers(seats)[..i + 1]) == SumSeq(Powers(seats)[..i]) + Power(seats[i])
  {
    assert Powers(seats)[..i + 1][..i] == Powers(seats)[..i];
  }

  /** Pass 1: every seat agrees with the copy it was built from, and all of
      them count in the total, paid or not. */
  method CheckSeats(seats: seq<Entry>, copy: Copy) returns (ok: bool, total: nat)
    ensures ok <==> forall i :: 0 <= i < |seats| ==> SeatMatches(seats[i], copy)
    ensures ok ==> total == TotalPower(seats)
  {
    hide Sum, SumSeq, Powers, Power, StakesOn;
    total := 0;
    var i := 0;
    SumSeqEmpty();
    assert Powers(seats)[..0] == [];
    while i < |seats|
      invariant 0 <= i <= |seats| && total == SumSeq(Powers(seats)[..i])
      invariant forall j :: 0 <= j < i ==> SeatMatches(seats[j], copy)
    {
      var e := seats[i];
      var sum := SumRows(StakesOn(copy.stakes, e.key));
      if e.bond > e.total || At(copy.bonds, e.key) != e.bond || sum != e.total - e.bond {
        assert !SeatMatches(seats[i], copy);
        return false, 0;
      }
      PowersStep(seats, i);
      total := total + Power(e);
      i := i + 1;
    }
    assert Powers(seats)[..|seats|] == Powers(seats);
    return true, total;
  }

  lemma PlusSwap(a: map<Key, nat>, b: map<Key, nat>)
    ensures Plus(a, b) == Plus(b, a)
  {
  }

  lemma OverflowsOwn(a: map<Key, nat>, own: map<Key, nat>, staker: map<Key, nat>, k: Key)
    requires At(a, k) + At(own, k) > STORE_MAX
    ensures Overflows(a, Plus(own, staker))
  {
    assert At(Plus(own, staker), k) >= At(own, k);
  }

  /** Credits x then y: the rows overflow exactly when y does on top of x. */
  lemma Composed(a: map<Key, nat>, x: map<Key, nat>, b: map<Key, nat>, y: map<Key, nat>)
    requires Added(a, x, b)
    ensures Overflows(a, Plus(x, y)) <==> Overflows(b, y)
  {
    assert forall k :: At(Plus(x, y), k) == At(x, k) + At(y, k);
    assert forall k :: At(b, k) == At(a, k) + At(x, k);
    if k :| At(b, k) + At(y, k) > STORE_MAX {
      assert At(a, k) + At(Plus(x, y), k) > STORE_MAX;
    }
    if k :| At(a, k) + At(Plus(x, y), k) > STORE_MAX {
      assert At(b, k) + At(y, k) > STORE_MAX;
    }
  }

  lemma ComposedAdded(a: map<Key, nat>, x: map<Key, nat>, b: map<Key, nat>, y: map<Key, nat>, c: map<Key, nat>)
    requires Added(a, x, b) && Added(b, y, c)
    ensures Added(a, Plus(x, y), c)
  {
  }

  lemma FitsNoOverflow(a: map<Key, nat>, x: map<Key, nat>, b: map<Key, nat>)
    requires Added(a, x, b) && RowsFit(b)
    ensures !Overflows(a, x)
  {
    forall k ensures At(a, k) + At(x, k) <= STORE_MAX { assert At(b, k) == At(a, k) + At(x, k); }
  }

  lemma OverflowsMore(a: map<Key, nat>, x: map<Key, nat>, y: map<Key, nat>)
    requires Overflows(a, x) && forall k :: At(x, k) <= At(y, k)
    ensures Overflows(a, y)
  {
    var k :| At(a, k) + At(x, k) > STORE_MAX;
    assert At(a, k) + At(y, k) > STORE_MAX;
  }

  lemma {:induction false} CreditsGrow(r: Round, i: nat, n: nat, k: Key)
    requires i <= n && SeatsOk(r, n)
    ensures At(Credits(r, i), k) <= At(Credits(r, n), k)
  {
    hide SeatCredits, SeatOk;
    if i < n { CreditsGrow(r, i, n - 1, k); }
  }

  lemma NoSeats(a: map<Key, nat>, r: Round)
    requires RowsFit(a) && |r.seats| == |r.shares|
    ensures SeatsOk(r, 0) && Added(a, Credits(r, 0), a) && Sum(Credits(r, 0)) == 0
  {
    SumZero(Credits(r, 0));
    NothingAdded(a, Credits(r, 0));
  }

  /** The checks a seat faces in pass 2, once pass 1 has matched it. */
  lemma SeatJudged(r: Round, i: nat)
    requires SeatsOk(r, i) && i < |r.seats| && SeatMatches(r.seats[i], r.copy)
    ensures SeatsOk(r, i + 1) <==> SeatOk(r, i)
    ensures SeatOk(r, i) <==> (Paid(r, i) ==> r.seats[i].total > 0 && r.seats[i].commission <= COMMISSION_MAX)
    ensures RoundOk(r) ==> SeatOk(r, i)
  {
  }

  lemma SeatBond(e: Entry, c: Copy)
    requires SeatMatches(e, c)
    ensures e.bond <= e.total
  {
  }

  /** What a paid seat receives. */
  ghost function SeatPay(r: Round, i: nat): map<Key, nat>
    requires i < |r.seats| == |r.shares| && SeatOk(r, i) && Paid(r, i)
  {
    MemberCredits(r.seats[i].key, SplitOf(r.seats[i], r.shares[i]), StakesOn(r.copy.stakes, r.seats[i].key))
  }

  lemma UnpaidStep(a: map<Key, nat>, r: Round, i: nat, b: map<Key, nat>)
    requires SeatsOk(r, i + 1) && SeatsOk(r, i) && !Paid(r, i) && Added(a, Credits(r, i), b)
    ensures Added(a, Credits(r, i + 1), b) && Sum(Credits(r, i + 1)) == Sum(Credits(r, i))
  {
    hide SeatOk, MemberCredits, MeetsBar, Sum;
    assert Plus(Credits(r, i), map[]) == Credits(r, i);
  }

  lemma PaidStep(a: map<Key, nat>, r: Round, i: nat, b: map<Key, nat>, c: map<Key, nat>)
    requires SeatsOk(r, i + 1) && SeatsOk(r, i) && SeatOk(r, i) && Paid(r, i)
    requires Added(a, Credits(r, i), b) && Added(b, SeatPay(r, i), c)
    ensures Added(a, Credits(r, i + 1), c)
    ensures Sum(Credits(r, i + 1)) == Sum(Credits(r, i)) + Sum(SeatPay(r, i))
  {
    hide SeatOk, MemberCredits, Sum, Added;
    ComposedAdded(a, Credits(r, i), b, SeatCredits(r, i), c);
    SumPlus(Credits(r, i), SeatCredits(r, i));
  }

  lemma OverflowStep(a: map<Key, nat>, r: Round, i: nat, b: map<Key, nat>)
    requires SeatsOk(r, i + 1) && SeatsOk(r, i) && SeatOk(r, i) && Paid(r, i)
    requires Added(a, Credits(r, i), b) && Overflows(b, SeatPay(r, i))
    ensures RoundOk(r) ==> Overflows(a, Credits(r, |r.seats|))
  {
    hide SeatOk, MemberCredits, Sum, Added, Overflows;
    Composed(a, Credits(r, i), b, SeatCredits(r, i));
    if RoundOk(r) {
      forall k ensures At(Credits(r, i + 1), k) <= At(Credits(r, |r.seats|), k) {
        CreditsGrow(r, i + 1, |r.seats|, k);
      }
      OverflowsMore(a, Credits(r, i + 1), Credits(r, |r.seats|));
    }
  }

  /** The specification of the distribution, with the row overflow named. */
  lemma SettleOutcome(s: State, h: nat)
    requires IsBoundary(h)
    ensures var open := s.pool / REWARD_DIVISOR != 0;
            && (!open ==> Settle(s, h) == Ok(s))
            && (open && (h - EPOCH !in s.snapshots || s.snapshots[h - EPOCH] == []) ==> Settle(s, h).Fault?)
            && (open && h - EPOCH in s.snapshots && s.snapshots[h - EPOCH] != [] ==> SettledRound(s, h, RoundAt(s, h)))
  {
    hide Sum, Overflows, SeatMatches, Credits, RoundAt, SeatsOk;
    if s.pool / REWARD_DIVISOR != 0 && h - EPOCH in s.snapshots && s.snapshots[h - EPOCH] != [] {
      var r := RoundAt(s, h);
      if RoundOk(r) {
        AccrueOverflows(s.accrual, Credits(r, |r.seats|));
        CreditsFitPayout(s, h);
      }
    }
  }

  lemma GateFails(r: Round)
    requires !forall i :: 0 <= i < |r.seats| ==> SeatMatches(r.seats[i], r.copy)
    ensures !RoundOk(r)
  {
    if RoundOk(r) {
      forall i | 0 <= i < |r.seats| ensures SeatMatches(r.seats[i], r.copy) { assert SeatOk(r, i); }
    }
  }

  ghost predicate SettledRound(s: State, h: nat, r: Round)
    requires IsBoundary(h)
  {
    if RoundOk(r) && !Overflows(s.accrual, Credits(r, |r.seats|))
    then Sum(Credits(r, |r.seats|)) <= s.pool
         && Settle(s, h) == Ok(s.(pool := s.pool - Sum(Credits(r, |r.seats|)),
                                  accrual := Accrue(s.accrual, Credits(r, |r.seats|))))
    else Settle(s, h).Fault?
  }

  lemma AccrueOverflows(a: map<Key, nat>, c: map<Key, nat>)
    ensures Overflows(a, c) <==> exists k :: k in Accrue(a, c) && Accrue(a, c)[k] > STORE_MAX
  {
    if k :| At(a, k) + At(c, k) > STORE_MAX {
      assert k in Accrue(a, c) && Accrue(a, c)[k] > STORE_MAX;
    }
    if k :| k in Accrue(a, c) && Accrue(a, c)[k] > STORE_MAX {
      assert At(a, k) + At(c, k) > STORE_MAX;
    }
  }

  /** Without power there are no shares, so nothing is credited. */
  lemma {:induction false} PowerlessRound(r: Round, n: nat)
    requires |r.seats| == |r.shares| && n <= |r.seats|
    requires forall i :: 0 <= i < |r.seats| ==> r.shares[i] == 0 && SeatMatches(r.seats[i], r.copy)
    ensures SeatsOk(r, n) && Credits(r, n) == map[] && Sum(Credits(r, n)) == 0
  {
    hide SeatMatches;
    if n > 0 {
      PowerlessRound(r, n - 1);
      assert SeatCredits(r, n - 1) == map[];
      assert Plus(Credits(r, n - 1), map[]) == map[];
    }
    SumZero(Credits(r, n));
  }

  lemma NothingAdded(b: map<Key, nat>, staker: map<Key, nat>)
    requires RowsFit(b) && forall k :: At(staker, k) == 0
    ensures Added(b, staker, b) && !Overflows(b, staker)
  {
  }

  lemma NoStakerCredits(net: nat, rows: map<Key, nat>)
    requires net == 0 || Sum(rows) == 0
    ensures Sum(StakerCredits(net, rows)) == 0
    ensures forall k :: At(StakerCredits(net, rows), k) == 0
  {
    var r := StakerCredits(net, rows);
    forall k | k in r ensures r[k] == 0 { assert r[k] == MulDiv(0, rows[k], Sum(rows)); }
    SumZero(r);
  }
}
