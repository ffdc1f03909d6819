/** The epoch reward: `pool >> 16` shared among the set that governed the
    ended epoch, each share split between bond, commission and delegators by
    the frozen copy that set was built from; and the payday that turns
    accrued rewards into coins. */
module Settlement {
  import opened Sums
  import opened Ledger

  /** The one participation predicate: half the epoch's blocks signed, and
      one of the last 120. */
  predicate MeetsBar(att: map<Key, Attendance>, v: Key, h: nat) {
    v in att
    && att[v].signed * 10000 >= EPOCH * LIVENESS_THRESHOLD_BPS
    && att[v].last > 0
    && att[v].last >= (if h > ATTENDANCE_WINDOW then h - ATTENDANCE_WINDOW else 0)
  }

  function Power(e: Entry): nat { e.total / DECIMAL_UNIT }

  function Powers(es: seq<Entry>): (r: seq<nat>)
    ensures |r| == |es|
    ensures forall i :: 0 <= i < |es| ==> r[i] == Power(es[i])
  {
    seq(|es|, i requires 0 <= i < |es| => Power(es[i]))
  }

  function TotalPower(es: seq<Entry>): nat { SumSeq(Powers(es)) }

  /** The consistency gate between a seat and the copy it was built from. */
  ghost predicate SeatMatches(e: Entry, c: Copy) {
    e.bond <= e.total
    && At(c.bonds, e.key) == e.bond
    && Sum(StakesOn(c.stakes, e.key)) == e.total - e.bond
  }

  /** One share, split in three. */
  datatype Split = Split(base: nat, commission: nat, net: nat)

  /** Own-bond base, then commission on the rest, then the delegators' net;
      every step floored. */
  function SplitOf(e: Entry, share: nat): (p: Split)
    requires 0 < e.total && e.bond <= e.total && e.commission <= COMMISSION_MAX
    ensures p.base + p.commission + p.net == share
    ensures p.base * e.total <= share * e.bond < p.base * e.total + e.total
    ensures p.commission * 10000 <= (share - p.base) * e.commission < p.commission * 10000 + 10000
    ensures e.bond == e.total ==> p.base == share
    ensures e.bond == 0 ==> p.base == 0
    ensures 2 * p.commission <= share - p.base
  {
    FloorShareAtMost(share, e.bond, e.total);
    FloorWhole(share, e.total);
    FloorBounds(share * e.bond, e.total);
    var base := MulDiv(share, e.bond, e.total);
    FloorShareAtMost(share - base, e.commission, 10000);
    var commission := MulDiv(share - base, e.commission, 10000);
    HalfAtMost(share - base, e.commission);
    FloorBounds((share - base) * e.commission, 10000);
    Split(base, commission, share - base - commission)
  }

  lemma HalfAtMost(x: nat, bps: nat)
    requires bps <= COMMISSION_MAX
    ensures 2 * MulDiv(x, bps, 10000) <= x
  {
    MulMono(bps, COMMISSION_MAX, x);
  }

  /** The net rest of a share, pro rata to the delegators' frozen rows. */
  ghost function StakerCredits(net: nat, rows: map<Key, nat>): map<Key, nat> {
    if Sum(rows) > 0 then ProRata(net, rows, Sum(rows)) else map[]
  }

  lemma StakerCreditsBounds(net: nat, rows: map<Key, nat>)
    ensures Sum(StakerCredits(net, rows)) <= net
    ensures Sum(rows) > 0 ==> net <= Sum(StakerCredits(net, rows)) + |rows|
  {
    if Sum(rows) > 0 { ProRataAtMost(net, rows); }
  }

  /** Base and commission to the validator, the net to its delegators. */
  ghost function MemberCredits(v: Key, p: Split, rows: map<Key, nat>): map<Key, nat> {
    Plus(StakerCredits(p.net, rows), map[v := p.base + p.commission])
  }

  lemma MemberCreditsSum(v: Key, p: Split, rows: map<Key, nat>)
    ensures Sum(MemberCredits(v, p, rows)) == Sum(StakerCredits(p.net, rows)) + p.base + p.commission
  {
    hide Sum, StakerCredits, Plus;
    var own: map<Key, nat> := map[v := p.base + p.commission];
    SumPlus(StakerCredits(p.net, rows), own);
    SumOne(v, p.base + p.commission);
  }

  lemma SumOne(k: Key, x: nat)
    ensures Sum(map[k := x]) == x
  {
    SumRemove(map[k := x], k);
    assert map[k := x] - {k} == map[];
  }

  lemma QuotientUnique(q: nat, c: nat, d: nat)
    requires d > 0 && q * d <= c * d < q * d + d
    ensures q == c
  {
    MulCancel(q, c, d);
    Distribute(q, 1, d);
    MulCancel(c, q + 1, d);
  }

  lemma FloorWhole(c: nat, d: nat)
    requires d > 0
    ensures MulDiv(c, d, d) == c
  {
    FloorBounds(c * d, d);
    QuotientUnique(c * d / d, c, d);
  }

  // ── the distribution ────────────────────────────────────────────────

  /** What the distribution at one boundary reads: the governing seats and
      their shares of the payout, the source copy, which seats still have a
      row, and attendance. */
  datatype Round = Round(
    height: nat, seats: seq<Entry>, shares: seq<nat>, copy: Copy,
    rows: set<Key>, attendance: map<Key, Attendance>)

  /** share_i = floor(payout · power_i / total power). A forfeited share is
      not redistributed: every seat counts in the divisor. */
  function Shares(payout: nat, seats: seq<Entry>): (r: seq<nat>)
    requires TotalPower(seats) > 0
    ensures |r| == |seats|
    ensures forall i :: 0 <= i < |seats| ==> r[i] == MulDiv(payout, Power(seats[i]), TotalPower(seats))
  {
    seq(|seats|, i requires 0 <= i < |seats| => MulDiv(payout, Power(seats[i]), TotalPower(seats)))
  }

  lemma SharesFitPayout(payout: nat, seats: seq<Entry>)
    requires TotalPower(seats) > 0
    ensures SumSeq(Shares(payout, seats)) <= payout
  {
    SharesFair(payout, TotalPower(seats), Powers(seats), Shares(payout, seats));
    MulCancel(SumSeq(Shares(payout, seats)), payout, TotalPower(seats));
  }

  /** Seat i keeps its share: it has a validators row and met the bar. */
  predicate Paid(r: Round, i: nat)
    requires i < |r.seats| == |r.shares|
  {
    r.shares[i] > 0 && r.seats[i].key in r.rows && MeetsBar(r.attendance, r.seats[i].key, r.height)
  }

  /** The checks passes 1 and 2 refuse to pay past. */
  ghost predicate SeatOk(r: Round, i: nat)
    requires i < |r.seats| == |r.shares|
  {
    SeatMatches(r.seats[i], r.copy)
    && (Paid(r, i) ==> r.seats[i].total > 0 && r.seats[i].commission <= COMMISSION_MAX)
  }

  ghost predicate SeatsOk(r: Round, n: nat) {
    n <= |r.seats| == |r.shares| && forall i :: 0 <= i < n ==> SeatOk(r, i)
  }

  ghost predicate RoundOk(r: Round) { SeatsOk(r, |r.seats|) }

  ghost function SeatCredits(r: Round, i: nat): map<Key, nat>
    requires i < |r.seats| == |r.shares| && SeatOk(r, i)
  {
    if !Paid(r, i) then map[]
    else MemberCredits(r.seats[i].key, SplitOf(r.seats[i], r.shares[i]),
                       StakesOn(r.copy.stakes, r.seats[i].key))
  }

  /** At most its share, and nothing without a row, with fewer than half of the
      720 blocks signed, or with none of the last 120. */
  lemma SeatCreditsAtMost(r: Round, i: nat)
    requires i < |r.seats| == |r.shares| && SeatOk(r, i)
    ensures Sum(SeatCredits(r, i)) <= r.shares[i]
    ensures var k := r.seats[i].key;
            (k !in r.rows || k !in r.attendance || 2 * r.attendance[k].signed < 720
             || r.attendance[k].last + 120 < r.height) ==> SeatCredits(r, i) == map[]
  {
    if Paid(r, i) {
      var p, rows := SplitOf(r.seats[i], r.shares[i]), StakesOn(r.copy.stakes, r.seats[i].key);
      MemberCreditsSum(r.seats[i].key, p, rows);
      StakerCreditsBounds(p.net, rows);
    }
  }

  /** A paid seat is paid in full, but for less than one unit a delegator. */
  lemma SeatCreditsAlmostFull(r: Round, i: nat)
    requires i < |r.seats| == |r.shares| && SeatOk(r, i) && Paid(r, i)
    ensures r.shares[i] <= Sum(SeatCredits(r, i)) + |StakesOn(r.copy.stakes, r.seats[i].key)|
  {
    hide Sum, SplitOf, StakesOn, MemberCredits, StakerCredits;
    var p, rows := SplitOf(r.seats[i], r.shares[i]), StakesOn(r.copy.stakes, r.seats[i].key);
    MemberCreditsSum(r.seats[i].key, p, rows);
    StakerCreditsBounds(p.net, rows);
  }

  /** The credits of the first n seats, summed per owner. */
  ghost function Credits(r: Round, n: nat): map<Key, nat>
    requires SeatsOk(r, n)
  {
    if n == 0 then map[] else Plus(Credits(r, n - 1), SeatCredits(r, n - 1))
  }

  lemma {:induction false} CreditsAtMost(r: Round, n: nat)
    requires SeatsOk(r, n)
    ensures Sum(Credits(r, n)) <= SumSeq(r.shares[..n])
  {
    hide Sum, SeatCredits, SeatOk;
    if n == 0 {
      SumZero(Credits(r, n));
    } else {
      CreditsAtMost(r, n - 1);
      SumPlus(Credits(r, n - 1), SeatCredits(r, n - 1));
      SeatCreditsAtMost(r, n - 1);
      assert r.shares[..n][..n - 1] == r.shares[..n - 1];
    }
  }

  /** Adding credits to the accrual table; a zero row is never written. */
  ghost function Accrue(acc: map<Key, nat>, credits: map<Key, nat>): (r: map<Key, nat>)
    ensures forall k :: k in r <==> At(acc, k) + At(credits, k) > 0
    ensures forall k :: k in r ==> r[k] == At(acc, k) + At(credits, k)
  {
    map k | k in acc.Keys + credits.Keys && At(acc, k) + At(credits, k) > 0 :: At(acc, k) + At(credits, k)
  }

  lemma AccrueSum(acc: map<Key, nat>, credits: map<Key, nat>)
    ensures Sum(Accrue(acc, credits)) == Sum(acc) + Sum(credits)
  {
    SumPlus(acc, credits);
    var p, r := Plus(acc, credits), Accrue(acc, credits);
    SumMono(p, r);
    SumMono(r, p);
  }

  ghost function RoundAt(s: State, h: nat): Round
    requires h >= EPOCH && h - EPOCH in s.snapshots
  {
    var seats := s.snapshots[h - EPOCH];
    Round(h, seats,
          if TotalPower(seats) > 0 then Shares(s.pool / REWARD_DIVISOR, seats)
          else seq(|seats|, i => 0),
          if SourceCopy(h) in s.copies then s.copies[SourceCopy(h)] else Copy(map[], map[]),
          s.validators.Keys, s.attendance)
  }

  /** Everything credited at a boundary fits the payout. */
  lemma CreditsFitPayout(s: State, h: nat)
    requires h >= EPOCH && h - EPOCH in s.snapshots && RoundOk(RoundAt(s, h))
    ensures Sum(Credits(RoundAt(s, h), |RoundAt(s, h).seats|)) <= s.pool / REWARD_DIVISOR
  {
    var r := RoundAt(s, h);
    CreditsAtMost(r, |r.seats|);
    assert r.shares[..|r.seats|] == r.shares;
    if TotalPower(r.seats) > 0 {
      SharesFitPayout(s.pool / REWARD_DIVISOR, r.seats);
    } else {
      SumSeqZero(r.shares);
    }
  }

  lemma {:induction false} SumSeqZero(xs: seq<nat>)
    requires forall i :: 0 <= i < |xs| ==> xs[i] == 0
    ensures SumSeq(xs) == 0
  {
    if xs != [] { SumSeqZero(xs[..|xs| - 1]); }
  }

  /** The reward distribution of boundary h. */
  ghost function Settle(s: State, h: nat): Result<State>
    requires IsBoundary(h)
  {
    if s.pool / REWARD_DIVISOR == 0 then Ok(s)
    else if h - EPOCH !in s.snapshots || s.snapshots[h - EPOCH] == [] then Fault
    else if !RoundOk(RoundAt(s, h)) then Fault
    else
      var r := RoundAt(s, h);
      CreditsFitPayout(s, h);
      var credits := Credits(r, |r.seats|);
      var accrual := Accrue(s.accrual, credits);
      if exists k :: k in accrual && accrual[k] > STORE_MAX then Fault
      else Ok(s.(pool := s.pool - Sum(credits), accrual := accrual))
  }

  /** The pool drops by exactly what is credited, at most one 65536th of it. */
  lemma SettleMoves(s: State, h: nat)
    requires IsBoundary(h) && Settle(s, h).Ok?
    requires forall k :: k in s.accrual ==> s.accrual[k] > 0
    ensures var t := Settle(s, h).value;
            && t == s.(pool := t.pool, accrual := t.accrual)
            && t.pool + Sum(t.accrual) == s.pool + Sum(s.accrual)
            && s.pool - s.pool / REWARD_DIVISOR <= t.pool <= s.pool
            && (forall k :: k in t.accrual ==> t.accrual[k] > 0)
  {
    if s.pool / REWARD_DIVISOR != 0 {
      var r := RoundAt(s, h);
      CreditsFitPayout(s, h);
      AccrueSum(s.accrual, Credits(r, |r.seats|));
    }
  }

  // ── payday ──────────────────────────────────────────────────────────

  predicate IsPayday(s: State, h: nat) {
    h / EPOCH % s.params.payoutInterval == 0
  }

  /** One unlocked coin per accrual row. */
  function PaydayCoins(h: nat, acc: map<Key, nat>): (r: map<CoinId, Coin>)
    ensures forall c :: c in r <==> c.PaydayOut? && c.boundary == h && c.payee in acc
    ensures forall c :: c in r ==> r[c] == Coin(c.payee, acc[c.payee], 0, Plain)
  {
    map c | c in (set k | k in acc :: PaydayOut(h, k)) :: Coin(c.payee, acc[c.payee], 0, Plain)
  }

  lemma PaydaySum(h: nat, acc: map<Key, nat>)
    ensures Sum(Amounts(PaydayCoins(h, acc))) == Sum(acc)
  {
    SumImage(acc, k => PaydayOut(h, k), (c: CoinId) => if c.PaydayOut? then c.payee else Key(0),
             Amounts(PaydayCoins(h, acc)));
  }

  ghost function Payday(s: State, h: nat): Result<State> {
    if !IsPayday(s, h) then Ok(s)
    else if exists k :: k in s.accrual && PaydayOut(h, k) in s.coins then Fault
    else Ok(s.(coins := s.coins + PaydayCoins(h, s.accrual), accrual := map[]))
  }

  lemma {:induction false} UnionSum(a: map<CoinId, Coin>, b: map<CoinId, Coin>)
    requires a.Keys !! b.Keys
    ensures Sum(Amounts(a + b)) == Sum(Amounts(a)) + Sum(Amounts(b))
  {
    SumSplit(Amounts(a + b), b.Keys);
    assert Amounts(a + b) - b.Keys == Amounts(a);
    assert (map k | k in Amounts(a + b) && k in b.Keys :: Amounts(a + b)[k]) == Amounts(b);
  }

  /** A payday pays every accrued unit and nothing else. */
  lemma PaydayMoves(s: State, h: nat)
    requires Payday(s, h).Ok?
    ensures var t := Payday(s, h).value;
            && t == s.(coins := t.coins, accrual := t.accrual)
            && Sum(Amounts(t.coins)) + Sum(t.accrual) == Sum(Amounts(s.coins)) + Sum(s.accrual)
  {
    if IsPayday(s, h) {
      PaydaySum(h, s.accrual);
      UnionSum(s.coins, PaydayCoins(h, s.accrual));
    }
  }
}
