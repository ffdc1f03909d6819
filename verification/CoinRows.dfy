/** What a consumed row of the explorer's index shows. The ledger forgets a
    spent coin id, so an id can be created again; the index looks for the
    oldest creation. When that is the coin that was consumed. */
module CoinRows {
  import opened IndexFold
  import opened Options

  ghost predicate IsFirst(ios: seq<IoRow>, coin: nat, k: nat, j: nat) {
    j < k <= |ios| && Creates(ios[j], coin) && forall i :: 0 <= i < j ==> !Creates(ios[i], coin)
  }

  ghost predicate IsLast(ios: seq<IoRow>, coin: nat, k: nat, j: nat) {
    j < k <= |ios| && Creates(ios[j], coin) && forall i :: j < i < k ==> !Creates(ios[i], coin)
  }

  // ── rows stand in chain order ───────────────────────────────────────

  lemma {:induction false} BlockAscends(h: nat, items: seq<Item>, j: nat, k: nat)
    requires j < k < |BlockIos(h, items)|
    ensures var a, b := BlockIos(h, items)[j], BlockIos(h, items)[k];
            a.height == b.height == h && (a.dir == 1 && b.dir == 1 ==> Before(a, b))
  {
    var n := |items| - 1;
    var head := BlockIos(h, items[..n]);
    if k < |head| {
      BlockAscends(h, items[..n], j, k);
    } else if j < |head| {
      BlockIosOwned(h, items[..n], j);
    }
  }

  lemma {:induction false} FoldHeights(bs: seq<Block>, k: nat)
    requires ChainOk(bs) && k < |Fold(bs).ios|
    ensures Fold(bs).ios[k].height <= |bs|
  {
    hide InsertAll, BlockIos, ItemRows;
    var n := |bs| - 1;
    var s, rows := Fold(bs[..n]), BlockIos(n + 1, bs[n].items);
    InsertKeys(s.ios, rows);
    if k < |s.ios| {
      FoldHeights(bs[..n], k);
    } else {
      BlockIosOwned(n + 1, bs[n].items, k - |s.ios|);
    }
  }

  lemma {:induction false} FoldAscends(bs: seq<Block>, j: nat, k: nat)
    requires ChainOk(bs) && j < k < |Fold(bs).ios|
    requires Fold(bs).ios[j].dir == 1 && Fold(bs).ios[k].dir == 1
    ensures Before(Fold(bs).ios[j], Fold(bs).ios[k])
  {
    hide InsertAll, BlockIos, ItemRows, ItemOk;
    var n := |bs| - 1;
    var s, rows := Fold(bs[..n]), BlockIos(n + 1, bs[n].items);
    InsertKeys(s.ios, rows);
    if k < |s.ios| {
      FoldAscends(bs[..n], j, k);
    } else if j < |s.ios| {
      FoldHeights(bs[..n], j);
      BlockIosOwned(n + 1, bs[n].items, k - |s.ios|);
    } else {
      BlockAscends(n + 1, bs[n].items, j - |s.ios|, k - |s.ios|);
    }
  }

  // ── what a row shows ────────────────────────────────────────────────

  /** A consumed row knows its owner exactly when an earlier row creates the
      coin, and then shows the columns of the first one that does. */
  lemma ConsumedRow(bs: seq<Block>, k: nat)
    requires ChainOk(bs) && k < |Fold(bs).ios| && Fold(bs).ios[k].dir != 1
    ensures var ios := Fold(bs).ios;
            && (ios[k].owner.Some? <==> exists j :: 0 <= j < k && Creates(ios[j], ios[k].coin))
            && (forall j: nat :: IsFirst(ios, ios[k].coin, k, j) ==> ios[k].owner == ios[j].owner)
  {
    hide Fold, ChainOk;
    FoldResolved(bs);
    var ios := Fold(bs).ios;
    var coin := ios[k].coin;
    var at := Creating(ios[..k], coin);
    if at.Some? {
      assert Creates(ios[at.value], coin);
      forall j: nat | IsFirst(ios, coin, k, j) ensures j == at.value {
        if j < at.value { FoldAscends(bs, j, at.value); }
        assert ios[..k][j] == ios[j];
      }
    } else {
      forall j | 0 <= j < k ensures !Creates(ios[j], coin) { assert ios[..k][j] == ios[j]; }
    }
  }

  // ── the coin that was consumed ──────────────────────────────────────

  /** The coin under an id after the rows, as the ledger holds it. */
  function LiveAt(ios: seq<IoRow>, coin: nat): Option<Owner> {
    if ios == [] then None else
      var r := ios[|ios| - 1];
      if r.coin != coin then LiveAt(ios[..|ios| - 1], coin) else if r.dir == 1 then r.owner else None
  }

  /** The live coin is the last one created. */
  lemma {:induction false} LiveIsLast(ios: seq<IoRow>, coin: nat, j: nat)
    requires LiveAt(ios, coin).Some? && IsLast(ios, coin, |ios|, j)
    ensures LiveAt(ios, coin) == ios[j].owner
  {
    var n := |ios| - 1;
    if ios[n].coin != coin { LiveIsLast(ios[..n], coin, j); }
  }

  /** An id is a digest of its owner's address and a seed. */
  ghost predicate AddressFixed(ios: seq<IoRow>, coin: nat) {
    forall i, j :: 0 <= i < j < |ios| && Creates(ios[i], coin) && Creates(ios[j], coin) ==>
      ios[i].owner.Some? && ios[j].owner.Some? ==> ios[i].owner.value.address == ios[j].owner.value.address
  }

  /** A consumed row shows the coin that was consumed if and only if the first
      and the last creation of the id before it agree on token and amount. */
  lemma ShowsConsumed(bs: seq<Block>, k: nat, first: nat, last: nat)
    requires ChainOk(bs) && k < |Fold(bs).ios| && Fold(bs).ios[k].dir != 1
    requires var ios := Fold(bs).ios;
             && IsFirst(ios, ios[k].coin, k, first) && IsLast(ios, ios[k].coin, k, last)
             && AddressFixed(ios[..k], ios[k].coin) && LiveAt(ios[..k], ios[k].coin).Some?
    ensures var ios := Fold(bs).ios;
            && ios[first].owner.Some? && ios[last].owner.Some?
            && (ios[k].owner == LiveAt(ios[..k], ios[k].coin) <==>
                  && ios[first].owner.value.token == ios[last].owner.value.token
                  && ios[first].owner.value.amount == ios[last].owner.value.amount)
  {
    hide Fold, ChainOk;
    ConsumedRow(bs, k);
    FoldResolved(bs);
    var ios := Fold(bs).ios;
    assert forall i :: 0 <= i < k ==> ios[..k][i] == ios[i];
    LiveIsLast(ios[..k], ios[k].coin, last);
  }

  // ── an id created twice ─────────────────────────────────────────────

  const SPENT_AND_MADE_AGAIN := 7

  function OneItem(h: nat, it: Item): Block { Block(Header(h, h, 0, 0, [1], 0, 1, 1), [it]) }

  function Making(h: nat, amount: nat): Block {
    OneItem(h, Item(ENVELOPE, 0, true, 0, 0, [], [Coin(SPENT_AND_MADE_AGAIN, 3, 0, amount, 0)]))
  }

  function Spending(h: nat): Block { OneItem(h, Item(ENVELOPE, 0, true, 0, 0, [SPENT_AND_MADE_AGAIN], [])) }

  /** Made with one amount, spent, made with another, spent. */
  function MadeTwice(small: nat, large: nat): seq<Block> {
    [Making(1, small), Spending(2), Making(3, large), Spending(4)]
  }

  function Made(h: nat, amount: nat): IoRow {
    IoRow(h, 0, 1, 0, SPENT_AND_MADE_AGAIN, Some(Owner(3, 0, amount)), 0)
  }

  function Gone(h: nat, amount: nat): IoRow {
    IoRow(h, 0, 0, 0, SPENT_AND_MADE_AGAIN, Some(Owner(3, 0, amount)), 0)
  }

  lemma OneIo(ios: seq<IoRow>, r: IoRow)
    ensures InsertAll(ios, [r]) == ios + [Stored(ios, r)]
  {
    assert [r][..0] == [] && InsertAll(ios, []) == ios;
  }

  lemma BlockIo(h: nat, it: Item)
    ensures BlockIos(h, [it]) == ItemIos(h, 0, it)
  {
    assert [it][..0] == [] && BlockIos(h, []) == [];
  }

  lemma MakingAdds(s: Snapshot, h: nat, amount: nat)
    ensures AddBlock(s, Making(h, amount)).ios == s.ios + [Made(h, amount)]
  {
    var it := Making(h, amount).items[0];
    BlockIo(h, it);
    assert ItemIos(h, 0, it) == [Made(h, amount)];
    OneIo(s.ios, Made(h, amount));
  }

  lemma SpendingAdds(s: Snapshot, h: nat, amount: nat)
    requires s.ios != [] && s.ios[0] == Made(1, amount) && h > 1
    requires forall i :: 0 <= i < |s.ios| ==> s.ios[i].height >= 1 && (i > 0 ==> s.ios[i].height > 1)
    ensures AddBlock(s, Spending(h)).ios == s.ios + [Gone(h, amount)]
  {
    var it, r := Spending(h).items[0], IoRow(h, 0, 0, 0, SPENT_AND_MADE_AGAIN, None, 0);
    BlockIo(h, it);
    assert ItemIos(h, 0, it) == [r];
    OneIo(s.ios, r);
    var at := Creating(s.ios, SPENT_AND_MADE_AGAIN);
    assert Creates(s.ios[0], SPENT_AND_MADE_AGAIN);
  }

  /** The last row shows the first coin's amount although the second was
      consumed. */
  lemma ShowsTheOlder(small: nat, large: nat)
    requires small != large
    ensures ChainOk(MadeTwice(small, large))
    ensures var ios := Fold(MadeTwice(small, large)).ios;
            && |ios| == 4 && LiveAt(ios[..3], ios[3].coin) == Some(Owner(3, 0, large))
            && ios[3] == Gone(4, small)
  {
    hide Fold, AddBlock;
    FourRows(small, large);
    var ios := Fold(MadeTwice(small, large)).ios;
    assert ios[..3][2] == Made(3, large);
  }

  lemma FourRows(small: nat, large: nat)
    ensures Fold(MadeTwice(small, large)).ios == [Made(1, small), Gone(2, small), Made(3, large), Gone(4, small)]
  {
    hide Fold, AddBlock;
    var bs, s0 := MadeTwice(small, large), Snapshot(0, [], [], []);
    FoldFour(bs);
    MakingAdds(s0, 1, small);
    var s1 := AddBlock(s0, bs[0]);
    SpendingAdds(s1, 2, small);
    var s2 := AddBlock(s1, bs[1]);
    MakingAdds(s2, 3, large);
    SpendingAdds(AddBlock(s2, bs[2]), 4, small);
  }

  lemma FoldFour(bs: seq<Block>)
    requires |bs| == 4
    ensures Fold(bs) == AddBlock(AddBlock(AddBlock(AddBlock(Snapshot(0, [], [], []), bs[0]), bs[1]), bs[2]), bs[3])
  {
    hide AddBlock;
    assert bs[..3][..2] == bs[..2] && bs[..2][..1] == bs[..1] && bs[..1][..0] == [];
    assert Fold(bs[..1]) == AddBlock(Snapshot(0, [], [], []), bs[0]);
    assert Fold(bs[..2]) == AddBlock(Fold(bs[..1]), bs[1]);
    assert Fold(bs[..3]) == AddBlock(Fold(bs[..2]), bs[2]);
  }
}
