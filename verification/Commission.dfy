/** When a validator's commission changes: a cut at once, a raise at the first
    boundary two epochs after it was asked for, and nothing else ever. */
module Commission {
  import opened Ledger
  import opened Transactions
  import opened Settlement
  import opened Committee
  import opened Boundary
  import opened Runs

  datatype Terms = Terms(commission: nat, pending: nat, effective: nat)

  function TermsOf(row: Validator): Terms { Terms(row.commission, row.pendingCommission, row.pendingEffective) }

  /** The item is the validator's own update, or stakes its key again; both
      count only with its own signature. */
  predicate Touches(t: Tx, v: Key) {
    (t.SetCommission? && t.validator == v == t.signer) || (t.Stake? && t.staker == v == t.signer)
  }

  /** The terms after all boundaries up to height `to`, from height `from`. */
  function Later(x: Terms, from: nat, to: nat): Terms {
    if x.pending != 0 && x.effective != 0 && from < EpochStart(to) && x.effective <= EpochStart(to)
    then Terms(x.pending, 0, 0) else x
  }

  // ── one step ────────────────────────────────────────────────────────

  ghost predicate Same(a: map<Key, Validator>, b: map<Key, Validator>, v: Key) {
    v in a ==> v in b && TermsOf(b[v]) == TermsOf(a[v])
  }

  lemma ItemSame(s: State, h: nat, t: Tx, v: Key)
    requires !Touches(t, v)
    ensures Same(s.validators, ApplyItem(s, h, t).validators, v)
  {
    hide FundingOk, Moved, PowerExit, DelegatorCount;
  }

  lemma {:induction false} ItemsSame(s: State, h: nat, items: seq<Tx>, v: Key)
    requires forall i :: 0 <= i < |items| ==> !Touches(items[i], v)
    ensures Same(s.validators, ApplyItems(s, h, items).validators, v)
    decreases |items|
  {
    hide ApplyItem, Touches;
    if items != [] {
      ItemSame(s, h, items[0], v);
      ItemsSame(ApplyItem(s, h, items[0]), h, items[1..], v);
    }
  }

  lemma {:induction false} GraduateSame(s: State, h: nat, ks: set<Key>, v: Key)
    requires GraduateAll(s, h, ks).Ok?
    ensures Same(s.validators, GraduateAll(s, h, ks).value.validators, v)
    decreases ks
  {
    hide StakesFree, Released, StakeSum;
    if ks != {} {
      var k := Least(ks);
      GraduateSame(GraduateOne(s, h, k).value, h, ks - {k}, v);
    }
  }

  lemma SettleSame(s: State, h: nat)
    requires IsBoundary(h) && Settle(s, h).Ok?
    ensures Settle(s, h).value.validators == s.validators
  {
    hide RoundAt, RoundOk, Credits, Accrue;
  }

  lemma OpenSame(s: State, h: nat, v: Key)
    requires IsBoundary(h) && Open(s, h).Ok? && v in s.validators
    ensures v in Open(s, h).value.validators
    ensures TermsOf(Open(s, h).value.validators[v]) == TermsOf(ActivateCommission(s.validators[v], h))
  {
    hide Settle, GraduateAll, Graduates, ActivateCommission;
    var s0 := ActivateCommissions(s, h);
    SettleSame(s0, h);
    var s1 := Settle(s0, h).value;
    var s2 := Payday(s1, h).value;
    assert s2.validators == s0.validators;
    GraduateSame(s2, h, Graduates(s2, h), v);
  }

  lemma RestSame(s: State, h: nat, tb: Tiebreak, v: Key)
    requires h >= EPOCH && RuleN(s, h, tb).Ok? && Close(RuleN(s, h, tb).value, h, tb).Ok?
    ensures Same(s.validators, Close(RuleN(s, h, tb).value, h, tb).value.validators, v)
  {
    hide CommitteeFor, Charged, Due, LiveCopy, SeatKeys, Allowed;
    RuleNSame(s, h, tb, v);
  }

  lemma RuleNSame(s: State, h: nat, tb: Tiebreak, v: Key)
    requires h >= EPOCH && RuleN(s, h, tb).Ok?
    ensures Same(s.validators, RuleN(s, h, tb).value.validators, v)
  {
    hide CommitteeFor, Charged, Due, Allowed;
    assert Same(s.validators, Recount(s, h).validators, v);
    assert Same(Recount(s, h).validators, Retire(Recount(s, h)).validators, v);
  }

  lemma BoundaryTerms(s: State, h: nat, tb: Tiebreak, v: Key)
    requires IsBoundary(h) && RunBoundary(s, h, tb).Ok? && v in s.validators
    ensures v in RunBoundary(s, h, tb).value.validators
    ensures TermsOf(RunBoundary(s, h, tb).value.validators[v]) == Later(TermsOf(s.validators[v]), h - 1, h)
  {
    hide Open, RuleN, Close;
    OpenSame(s, h, v);
    RestSame(Open(s, h).value, h, tb, v);
    assert EpochStart(h) == h;
  }

  // ── runs ────────────────────────────────────────────────────────────

  predicate Untouched(b: Block, v: Key) { forall i :: 0 <= i < |b.items| ==> !Touches(b.items[i], v) }

  lemma BlockTerms(s: State, b: Block, v: Key)
    requires ApplyBlock(s, b).Ok? && Untouched(b, v) && v in s.validators
    ensures v in ApplyBlock(s, b).value.validators && ApplyBlock(s, b).value.height == s.height + 1
    ensures TermsOf(ApplyBlock(s, b).value.validators[v]) ==
            Later(TermsOf(s.validators[v]), s.height, s.height + 1)
  {
    hide RunBoundary, ApplyItems, TermsOf, Touches;
    ItemsSame(s, s.height + 1, b.items, v);
    if IsBoundary(s.height + 1) { BoundaryTerms(BeforeBoundary(s, b), s.height + 1, b.tb, v); }
  }

  /** Over any run in which the validator itself asks for nothing, its
      commission changes exactly when a boundary at or past the effective
      height is crossed. */
  lemma {:induction false} CommissionAt(s: State, blocks: seq<Block>, v: Key)
    requires Run(s, blocks).Ok? && v in s.validators
    requires forall i :: 0 <= i < |blocks| ==> Untouched(blocks[i], v)
    ensures var t := Run(s, blocks).value;
            && t.height == s.height + |blocks| && v in t.validators
            && TermsOf(t.validators[v]) == Later(TermsOf(s.validators[v]), s.height, s.height + |blocks|)
    decreases |blocks|
  {
    hide ApplyBlock, TermsOf, Untouched;
    if blocks != [] {
      var n := |blocks| - 1;
      CommissionAt(s, blocks[..n], v);
      BlockTerms(Run(s, blocks[..n]).value, blocks[n], v);
      LaterOn(TermsOf(s.validators[v]), s.height, s.height + n);
    }
  }

  lemma LaterOn(x: Terms, from: nat, mid: nat)
    requires from <= mid
    ensures Later(Later(x, from, mid), mid, mid + 1) == Later(x, from, mid + 1)
  {
    assert EpochStart(mid) <= EpochStart(mid + 1) <= mid + 1;
    assert EpochStart(mid + 1) == EpochStart(mid) || EpochStart(mid + 1) == mid + 1;
  }

  // ── what was asked for ──────────────────────────────────────────────

  lemma {:induction false} ItemsSplit(s: State, h: nat, items: seq<Tx>, i: nat)
    requires i <= |items|
    ensures ApplyItems(s, h, items) == ApplyItems(ApplyItems(s, h, items[..i]), h, items[i..])
    decreases i
  {
    hide ApplyItem;
    if i == 0 {
      assert items[..0] == [] && items[0..] == items;
    } else {
      assert items[..i][0] == items[0] && items[..i][1..] == items[1..][..i - 1];
      assert items[i..] == items[1..][i - 1..];
      ItemsSplit(ApplyItem(s, h, items[0]), h, items[1..], i - 1);
    }
  }

  lemma OneItem(s: State, h: nat, t: Tx)
    ensures ApplyItems(s, h, [t]) == ApplyItem(s, h, t)
  {
    hide ApplyItem;
    assert [t][1..] == [];
  }

  lemma Asked(s: State, h: nat, t: Tx)
    requires t.SetCommission? && Exec(s, h, t).Applied?
    ensures t.validator in s.validators && t.validator in ApplyItem(s, h, t).validators
    ensures var before := s.validators[t.validator].commission;
            TermsOf(ApplyItem(s, h, t).validators[t.validator]) ==
            if t.bps > before then Terms(before, t.bps, h + 2 * EPOCH) else Terms(t.bps, 0, 0)
  {
    hide FundingOk, Moved;
  }

  lemma Staked(s: State, h: nat, t: Tx)
    requires t.Stake? && Exec(s, h, t).Applied?
    ensures t.staker in ApplyItem(s, h, t).validators
    ensures TermsOf(ApplyItem(s, h, t).validators[t.staker]) == Terms(t.commission, 0, 0)
  {
    hide FundingOk, Moved;
  }

  /** The state item i of a block meets. */
  ghost function Meets(s: State, b: Block, i: nat): State
    requires i < |b.items|
  {
    ApplyItems(s, s.height + 1, b.items[..i])
  }

  /** Item i of the block is applied, and nothing after it in the block touches
      v. */
  ghost predicate LastFor(s: State, b: Block, i: nat, v: Key) {
    && i < |b.items| && Exec(Meets(s, b, i), s.height + 1, b.items[i]).Applied?
    && forall j :: i < j < |b.items| ==> !Touches(b.items[j], v)
  }

  /** It is an update of its validator's commission. */
  ghost predicate LastUpdate(s: State, b: Block, i: nat) {
    i < |b.items| && b.items[i].SetCommission? && LastFor(s, b, i, b.items[i].validator)
  }

  lemma AfterItem(s: State, b: Block, i: nat, v: Key)
    requires LastFor(s, b, i, v) && ApplyBlock(s, b).Ok?
    requires v in ApplyItem(Meets(s, b, i), s.height + 1, b.items[i]).validators
    ensures var h := s.height + 1;
            var row := ApplyItem(Meets(s, b, i), h, b.items[i]).validators[v];
            && v in ApplyBlock(s, b).value.validators && ApplyBlock(s, b).value.height == h
            && TermsOf(ApplyBlock(s, b).value.validators[v]) == Later(TermsOf(row), h - 1, h)
  {
    hide RunBoundary, ApplyItems, Exec, ApplyItem, Touches, TermsOf;
    var h, t := s.height + 1, b.items[i];
    var m := Meets(s, b, i);
    ItemsSplit(s, h, b.items, i);
    ItemsSplit(m, h, b.items[i..], 1);
    assert b.items[i..][..1] == [t] && b.items[i..][1..] == b.items[i + 1..];
    OneItem(m, h, t);
    ItemsSame(ApplyItem(m, h, t), h, b.items[i + 1..], v);
    if IsBoundary(h) { BoundaryTerms(BeforeBoundary(s, b), h, b.tb, v); }
  }

  lemma UpdateBlock(s: State, b: Block, i: nat)
    requires LastUpdate(s, b, i) && ApplyBlock(s, b).Ok?
    ensures var h, v, bps := s.height + 1, b.items[i].validator, b.items[i].bps;
            && v in Meets(s, b, i).validators && v in ApplyBlock(s, b).value.validators
            && ApplyBlock(s, b).value.height == h
            && var before := Meets(s, b, i).validators[v].commission;
               TermsOf(ApplyBlock(s, b).value.validators[v]) ==
               if bps > before then Terms(before, bps, h + 2 * EPOCH) else Terms(bps, 0, 0)
  {
    hide ApplyBlock, Exec, ApplyItem, Touches, TermsOf, Meets;
    Asked(Meets(s, b, i), s.height + 1, b.items[i]);
    AfterItem(s, b, i, b.items[i].validator);
  }

  /** Over every run: a raise applied in block h is in effect exactly from the
      first boundary at or after h + 2E on, and until then the old commission
      is; anything else is in effect at once and for good. */
  lemma UpdateTakesEffect(s: State, b: Block, i: nat, blocks: seq<Block>)
    requires LastUpdate(s, b, i) && ApplyBlock(s, b).Ok? && Run(ApplyBlock(s, b).value, blocks).Ok?
    requires forall j :: 0 <= j < |blocks| ==> Untouched(blocks[j], b.items[i].validator)
    ensures var h, v, bps := s.height + 1, b.items[i].validator, b.items[i].bps;
            var t := Run(ApplyBlock(s, b).value, blocks).value;
            && v in Meets(s, b, i).validators && v in t.validators
            && var before := Meets(s, b, i).validators[v].commission;
               t.validators[v].commission ==
               if bps > before && EpochStart(h + |blocks|) < h + 2 * EPOCH then before else bps
  {
    hide ApplyBlock, Run, Untouched, Exec, Meets, Touches;
    UpdateBlock(s, b, i);
    CommissionAt(ApplyBlock(s, b).value, blocks, b.items[i].validator);
  }

  /** And the commission a key is staked with is its commission from that block
      on, until it asks for another. */
  lemma StakeTakesEffect(s: State, b: Block, i: nat, blocks: seq<Block>)
    requires i < |b.items| && b.items[i].Stake? && LastFor(s, b, i, b.items[i].staker)
    requires ApplyBlock(s, b).Ok? && Run(ApplyBlock(s, b).value, blocks).Ok?
    requires forall j :: 0 <= j < |blocks| ==> Untouched(blocks[j], b.items[i].staker)
    ensures var v, t := b.items[i].staker, Run(ApplyBlock(s, b).value, blocks).value;
            v in t.validators && t.validators[v].commission == b.items[i].commission
  {
    hide ApplyBlock, Run, Untouched, Exec, Meets, Touches, ApplyItem;
    Staked(Meets(s, b, i), s.height + 1, b.items[i]);
    AfterItem(s, b, i, b.items[i].staker);
    CommissionAt(ApplyBlock(s, b).value, blocks, b.items[i].staker);
  }
}
