/** Exactly when an item is applied and exactly what it leaves, coin by coin
    and row by row: nothing a chain promises is refused, and nothing else
    changes. */
module Acceptance {
  import opened Sums
  import opened Ledger
  import opened Transactions

  // ── the funding leg, output by output ───────────────────────────────

  function OutId(o: Output): CoinId { WireOut(o.owner, o.seed) }

  function OutTotal(outs: seq<Output>): nat {
    if outs == [] then 0 else outs[0].amount + OutTotal(outs[1..])
  }

  ghost function InTotal(coins: map<CoinId, Coin>, ids: set<CoinId>): nat {
    Sum(map c | c in coins && c in ids :: coins[c].amount)
  }

  predicate Makes(outs: seq<Output>, c: CoinId) { exists i :: 0 <= i < |outs| && OutId(outs[i]) == c }

  /** Up to 15 coins, each there, unlocked before h and owned by a signer; up
      to 16 outputs, none empty, none named like another or like a coin; a fee
      of at least 0.01; and the coins are worth the outputs, the fee and what
      is paid for. */
  ghost predicate Funded(coins: map<CoinId, Coin>, h: nat, f: Funding, minOut: nat, need: nat) {
    && 1 <= |f.inputs| <= 15 && minOut <= |f.outputs| <= 16 && f.fee >= 1_000_000
    && (forall c :: c in f.inputs ==> c in coins && coins[c].unlock < h && coins[c].owner in f.signers)
    && (forall i :: 0 <= i < |f.outputs| ==> f.outputs[i].amount > 0 && OutId(f.outputs[i]) !in coins)
    && (forall i, j :: 0 <= i < j < |f.outputs| ==> OutId(f.outputs[i]) != OutId(f.outputs[j]))
    && InTotal(coins, f.inputs) == OutTotal(f.outputs) + f.fee + need
  }

  /** The spent coins are gone, the outputs are there unlocked, the rest is as
      it was. */
  ghost predicate CoinsAfter(a: map<CoinId, Coin>, f: Funding, b: map<CoinId, Coin>) {
    && (forall c :: c in b <==> Makes(f.outputs, c) || (c in a && c !in f.inputs))
    && (forall c :: c in b && !Makes(f.outputs, c) ==> b[c] == a[c])
    && (forall i :: 0 <= i < |f.outputs| ==>
          b[OutId(f.outputs[i])] == Coin(f.outputs[i].owner, f.outputs[i].amount, 0, Plain))
  }

  lemma {:induction false} OutTotalAdd(outs: seq<Output>, o: Output)
    ensures OutTotal(outs + [o]) == OutTotal(outs) + o.amount
    decreases |outs|
  {
    if outs == [] {
      assert outs + [o] == [o] && [o][1..] == [];
    } else {
      OutTotalAdd(outs[1..], o);
      assert (outs + [o])[1..] == outs[1..] + [o];
    }
  }

  lemma {:induction false} OutSumIs(outs: seq<Output>)
    ensures OutSum(outs) == OutTotal(outs)
    decreases |outs|
  {
    if outs != [] {
      var n := |outs| - 1;
      OutSumIs(outs[..n]);
      OutTotalAdd(outs[..n], outs[n]);
      assert outs == outs[..n] + [outs[n]];
    }
  }

  lemma {:induction false} MintedKeys(outs: seq<Output>, c: CoinId)
    ensures c in Minted(outs) <==> Makes(outs, c)
    decreases |outs|
  {
    hide Makes;
    if outs == [] {
      MakesNone(c);
    } else {
      MintedKeys(outs[..|outs| - 1], c);
      MakesOne(outs, c);
    }
  }

  lemma MakesNone(c: CoinId)
    ensures !Makes([], c)
  {
  }

  lemma {:induction false} MintedAt(outs: seq<Output>, i: nat)
    requires OutputsOk(outs) && i < |outs|
    ensures OutId(outs[i]) in Minted(outs)
    ensures Minted(outs)[OutId(outs[i])] == Coin(outs[i].owner, outs[i].amount, 0, Plain)
    decreases |outs|
  {
    var n := |outs| - 1;
    if i < n { MintedAt(outs[..n], i); }
  }

  predicate Nonempty(outs: seq<Output>) { forall i :: 0 <= i < |outs| ==> outs[i].amount > 0 }

  predicate Apart(outs: seq<Output>) {
    forall i, j :: 0 <= i < j < |outs| ==> OutId(outs[i]) != OutId(outs[j])
  }

  lemma ApartOne(outs: seq<Output>)
    requires outs != []
    ensures var n := |outs| - 1;
            && (Apart(outs) <==> Apart(outs[..n]) && !Makes(outs[..n], OutId(outs[n])))
            && (Nonempty(outs) <==> Nonempty(outs[..n]) && outs[n].amount > 0)
  {
    var n := |outs| - 1;
    MakesHead(outs, OutId(outs[n]));
    assert forall i :: 0 <= i < n ==> outs[..n][i] == outs[i];
  }

  lemma {:induction false} OutputsOkIs(outs: seq<Output>)
    ensures OutputsOk(outs) <==> Nonempty(outs) && Apart(outs)
    decreases |outs|
  {
    hide Nonempty, Apart, Minted, Makes;
    if outs == [] {
      NoneApart();
    } else {
      var n := |outs| - 1;
      OutputsOkIs(outs[..n]);
      ApartOne(outs);
      MintedKeys(outs[..n], OutId(outs[n]));
    }
  }

  lemma NoneApart()
    ensures Nonempty([]) && Apart([])
  {
  }

  lemma MakesOne(outs: seq<Output>, c: CoinId)
    requires outs != []
    ensures Makes(outs, c) <==> Makes(outs[..|outs| - 1], c) || OutId(outs[|outs| - 1]) == c
  {
    var n := |outs| - 1;
    assert forall i :: 0 <= i < n ==> outs[..n][i] == outs[i];
  }

  lemma MakesHead(outs: seq<Output>, c: CoinId)
    requires outs != []
    ensures Makes(outs[..|outs| - 1], c) <==> exists i :: 0 <= i < |outs| - 1 && OutId(outs[i]) == c
  {
    var n := |outs| - 1;
    assert forall i :: 0 <= i < n ==> outs[..n][i] == outs[i];
  }

  lemma InSumIs(coins: map<CoinId, Coin>, ids: set<CoinId>)
    ensures InSum(coins, ids) == InTotal(coins, ids)
  {
    hide Sum;
    assert (map c | c in Amounts(coins) && c in ids :: Amounts(coins)[c])
        == (map c | c in coins && c in ids :: coins[c].amount);
  }

  /** The leg is taken exactly when it is funded. */
  lemma FundedIff(coins: map<CoinId, Coin>, h: nat, f: Funding, minOut: nat, need: nat)
    ensures FundingOk(coins, h, f, minOut, need) <==> Funded(coins, h, f, minOut, need)
    ensures Funded(coins, h, f, minOut, need) ==> CoinsAfter(coins, f, Moved(coins, f))
  {
    hide OutputsOk, Minted, OutSum, OutTotal, InSum, InTotal, Makes;
    OutSumIs(f.outputs);
    InSumIs(coins, f.inputs);
    OutputsOkIs(f.outputs);
    MadeApart(coins, f.outputs);
    forall c ensures c in Minted(f.outputs) <==> Makes(f.outputs, c) { MintedKeys(f.outputs, c); }
    if OutputsOk(f.outputs) {
      forall i | 0 <= i < |f.outputs|
        ensures OutId(f.outputs[i]) in Minted(f.outputs)
        ensures Minted(f.outputs)[OutId(f.outputs[i])] == Coin(f.outputs[i].owner, f.outputs[i].amount, 0, Plain)
      {
        MintedAt(f.outputs, i);
      }
    }
  }

  lemma MadeApart(coins: map<CoinId, Coin>, outs: seq<Output>)
    ensures Minted(outs).Keys !! coins.Keys <==> forall i :: 0 <= i < |outs| ==> OutId(outs[i]) !in coins
  {
    hide OutputsOk, Minted;
    forall c ensures c in Minted(outs) <==> Makes(outs, c) { MintedKeys(outs, c); }
    assert forall i :: 0 <= i < |outs| ==> Makes(outs, OutId(outs[i]));
  }

  // ── the items ───────────────────────────────────────────────────────

  /** What the item pays for besides its fee, and how many outputs it must
      have. */
  function Price(t: Tx): nat {
    match t
    case Burn(_, amount) => amount
    case Stake(_, _, _, bond, _, _) => bond
    case Delegate(_, _, _, amount) => amount
    case _ => 0
  }

  /** May this key be bonded now: it has no row, or one that holds nothing. */
  predicate Vacant(s: State, v: Key) {
    v in s.validators ==>
      var row := s.validators[v];
      row.status.Unstaked? && row.selfStake == 0 && row.totalDelegated == 0 && row.externalDelegated == 0
  }

  predicate Serving(s: State, v: Key) {
    v in s.validators && (s.validators[v].status.Active? || s.validators[v].status.Eligible?)
  }

  /** What each item asks for besides its funding. */
  predicate Demands(s: State, t: Tx) {
    match t
    case Spend(_) => true
    case Burn(_, amount) => amount > 0
    case Stake(_, signer, v, bond, bps, _) =>
      && signer == v && bps <= 5000 && s.params.bondMin <= bond <= s.params.bondMax
      && Vacant(s, v) && s.activeCount < 128
    case Unstake(_, signer, v) => signer == v && Serving(s, v)
    case Delegate(_, signer, p, x) =>
      && signer == p.delegator && 0 < x <= 100_000_000_000_000_000 && Serving(s, p.validator)
      && (p in s.delegations || (x >= 10_000_000_000 && |Delegators(s.delegations, p.validator)| < 2048))
    case Undelegate(_, signer, p, x, intent) =>
      && signer == p.delegator && p in s.delegations && 0 < x <= s.delegations[p]
      && (x == s.delegations[p] || s.delegations[p] - x >= 10_000_000_000)
      && p.validator in s.validators && x <= s.validators[p.validator].totalDelegated
      && x <= s.validators[p.validator].externalDelegated && UndelegateOut(intent) !in s.coins
    case SetCommission(_, signer, v, bps) =>
      && signer == v && bps <= 5000 && v in s.validators
      && (Serving(s, v) || s.validators[v].status.Retiring?)
    case Claim(a) => a in s.allocations && s.allocations[a].amount > 0 && ClaimOut(a) !in s.coins
  }

  ghost predicate Acceptable(s: State, h: nat, t: Tx) {
    Demands(s, t) && (t.Claim? || Funded(s.coins, h, t.f, if t.Spend? then 1 else 0, Price(t)))
  }

  lemma {:induction false} CountIs(stakes: map<Pair, nat>, v: Key)
    ensures DelegatorCount(stakes, v) == |Delegators(stakes, v)|
  {
    var ps := set p | p in stakes && p.validator == v;
    var ds := Delegators(stakes, v);
    assert ds == set p | p in ps :: p.delegator;
    SameSize(ps, ds, v);
  }

  lemma {:induction false} SameSize(ps: set<Pair>, ds: set<Key>, v: Key)
    requires forall p :: p in ps ==> p.validator == v && p.delegator in ds
    requires forall d :: d in ds ==> Pair(v, d) in ps
    ensures |ps| == |ds|
    decreases ps
  {
    if p :| p in ps {
      SameSize(ps - {p}, ds - {p.delegator}, v);
    } else {
      assert ds == {};
    }
  }

  /** An item is applied exactly when it is acceptable. */
  lemma AppliedIff(s: State, h: nat, t: Tx)
    ensures Exec(s, h, t).Applied? <==> Acceptable(s, h, t)
  {
    hide FundingOk, Funded, Moved, DelegatorCount, PowerExit;
    if !t.Claim? { FundedIff(s.coins, h, t.f, if t.Spend? then 1 else 0, Price(t)); }
    if t.Delegate? { CountIs(s.delegations, t.pair.validator); }
  }
}
