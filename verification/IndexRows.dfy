/** What the index holds, column by column: every item and every coin of every
    block has exactly one row, with the block's own values, and there are no
    other rows. */
module IndexRows {
  import opened IndexFold
  import opened Options

  // ── item rows ───────────────────────────────────────────────────────

  /** How many items the first k blocks have. */
  function ItemsBefore(bs: seq<Block>, k: nat): nat
    requires k <= |bs|
  {
    if k == 0 then 0 else ItemsBefore(bs, k - 1) + |bs[k - 1].items|
  }

  /** Row r is that of item i of the block at height k + 1. */
  predicate IsRowOf(r: ItemRow, bs: seq<Block>, k: nat, i: nat) {
    && k < |bs| && i < |bs[k].items| && r.height == k + 1 && r.idx == i
    && var it := bs[k].items[i];
       && r.kind == it.kind && r.code == it.code && r.effects == it.effects
       && r.burned == it.burned && r.record == it.record
  }

  lemma {:induction false} BeforePrefix(bs: seq<Block>, n: nat, k: nat)
    requires k <= n <= |bs|
    ensures ItemsBefore(bs[..n], k) == ItemsBefore(bs, k)
    decreases k
  {
    if k > 0 { BeforePrefix(bs, n, k - 1); }
  }

  lemma BlockRow(h: nat, items: seq<Item>, i: nat)
    requires i < |items|
    ensures var r, it := ItemRows(h, items)[i], items[i];
            && r.height == h && r.idx == i && r.kind == it.kind && r.code == it.code && r.effects == it.effects
            && r.burned == it.burned && r.record == it.record
  {
  }

  /** The rows stand in the order of the blocks and their items. */
  lemma {:induction false} RowPlace(bs: seq<Block>, j: nat) returns (k: nat, i: nat)
    requires ChainOk(bs) && j < |Fold(bs).items|
    ensures IsRowOf(Fold(bs).items[j], bs, k, i) && j == ItemsBefore(bs, k) + i
    decreases |bs|
  {
    hide InsertAll, BlockIos, ItemRows, ItemOk, HeaderOk;
    var n := |bs| - 1;
    var before := Fold(bs[..n]).items;
    RowCount(bs[..n]);
    BeforePrefix(bs, n, n);
    if j < |before| {
      k, i := RowPlace(bs[..n], j);
      BeforePrefix(bs, n, k);
    } else {
      k, i := n, j - |before|;
      BlockRow(n + 1, bs[n].items, i);
    }
  }

  lemma {:induction false} RowCount(bs: seq<Block>)
    ensures |Fold(bs).items| == ItemsBefore(bs, |bs|)
    decreases |bs|
  {
    hide InsertAll, BlockIos;
    if bs != [] {
      var n := |bs| - 1;
      RowCount(bs[..n]);
      BeforePrefix(bs, n, n);
    }
  }

  lemma {:induction false} RowAt(bs: seq<Block>, k: nat, i: nat)
    requires ChainOk(bs) && k < |bs| && i < |bs[k].items|
    ensures ItemsBefore(bs, k) + i < |Fold(bs).items|
    ensures IsRowOf(Fold(bs).items[ItemsBefore(bs, k) + i], bs, k, i)
    decreases |bs|
  {
    hide InsertAll, BlockIos, ItemRows, ItemOk, HeaderOk;
    var n := |bs| - 1;
    RowCount(bs[..n]);
    BeforePrefix(bs, n, k);
    if k < n {
      RowAt(bs[..n], k, i);
    } else {
      BlockRow(n + 1, bs[n].items, i);
    }
  }

  predicate Names(r: ItemRow, k: nat, i: nat) { r.height == k + 1 && r.idx == i }

  /** Every item has exactly one row, and it holds the item's values. */
  lemma OneRowPerItem(bs: seq<Block>, k: nat, i: nat)
    requires ChainOk(bs) && k < |bs| && i < |bs[k].items|
    ensures exists j :: 0 <= j < |Fold(bs).items| && IsRowOf(Fold(bs).items[j], bs, k, i)
    ensures var rows := Fold(bs).items;
            forall x, y :: 0 <= x < |rows| && 0 <= y < |rows| && Names(rows[x], k, i) && Names(rows[y], k, i) ==> x == y
  {
    hide Fold, ChainOk;
    var rows := Fold(bs).items;
    RowAt(bs, k, i);
    forall x, y | 0 <= x < |rows| && 0 <= y < |rows| && Names(rows[x], k, i) && Names(rows[y], k, i)
      ensures x == y
    {
      var a, b := RowPlace(bs, x);
      var c, d := RowPlace(bs, y);
    }
  }

  /** And every row is the row of an item. */
  lemma EveryRowIsAnItem(bs: seq<Block>, j: nat)
    requires ChainOk(bs) && j < |Fold(bs).items|
    ensures var r := Fold(bs).items[j]; 1 <= r.height && IsRowOf(r, bs, r.height - 1, r.idx)
  {
    hide Fold, ChainOk;
    var k, i := RowPlace(bs, j);
  }

  // ── coin rows ───────────────────────────────────────────────────────

  function CoinsIn(it: Item): nat { if it.effects then |it.consumed| + |it.created| else 0 }

  function CoinsTo(items: seq<Item>, i: nat): nat
    requires i <= |items|
  {
    if i == 0 then 0 else CoinsTo(items, i - 1) + CoinsIn(items[i - 1])
  }

  function CoinsBefore(bs: seq<Block>, k: nat): nat
    requires k <= |bs|
  {
    if k == 0 then 0 else CoinsBefore(bs, k - 1) + CoinsTo(bs[k - 1].items, |bs[k - 1].items|)
  }

  /** The p-th coin of an item: its spent coins, then the ones it made. */
  predicate IsCoinOf(r: IoRow, it: Item, p: nat) {
    && p < CoinsIn(it)
    && if p < |it.consumed| then r.dir == 0 && r.pos == p && r.coin == it.consumed[p]
       else
         var c := it.created[p - |it.consumed|];
         && r.dir == 1 && r.pos == p - |it.consumed| && r.coin == c.id
         && r.owner == Some(Owner(c.owner, c.token, c.amount)) && r.unlock == c.unlock
  }

  predicate IsCoinRowOf(r: IoRow, bs: seq<Block>, k: nat, i: nat, p: nat) {
    && k < |bs| && i < |bs[k].items| && r.height == k + 1 && r.idx == i && IsCoinOf(r, bs[k].items[i], p)
  }

  lemma {:induction false} CoinsToPrefix(items: seq<Item>, n: nat, i: nat)
    requires i <= n <= |items|
    ensures CoinsTo(items[..n], i) == CoinsTo(items, i)
    decreases i
  {
    if i > 0 { CoinsToPrefix(items, n, i - 1); }
  }

  lemma {:induction false} CoinsPrefix(bs: seq<Block>, n: nat, k: nat)
    requires k <= n <= |bs|
    ensures CoinsBefore(bs[..n], k) == CoinsBefore(bs, k)
    decreases k
  {
    if k > 0 { CoinsPrefix(bs, n, k - 1); }
  }

  lemma ItemCoin(h: nat, i: nat, it: Item, p: nat)
    ensures |ItemIos(h, i, it)| == CoinsIn(it)
    ensures p < CoinsIn(it) ==>
      var r := ItemIos(h, i, it)[p]; r.height == h && r.idx == i && IsCoinOf(r, it, p)
  {
  }

  lemma {:induction false} BlockCoins(h: nat, items: seq<Item>)
    ensures |BlockIos(h, items)| == CoinsTo(items, |items|)
    decreases |items|
  {
    if items != [] {
      var n := |items| - 1;
      BlockCoins(h, items[..n]);
      CoinsToPrefix(items, n, n);
      ItemCoin(h, n, items[n], 0);
    }
  }

  lemma {:induction false} BlockCoinPlace(h: nat, items: seq<Item>, j: nat) returns (i: nat, p: nat)
    requires j < |BlockIos(h, items)|
    ensures i < |items| && j == CoinsTo(items, i) + p
    ensures var r := BlockIos(h, items)[j]; r.height == h && r.idx == i && IsCoinOf(r, items[i], p)
    decreases |items|
  {
    hide ItemIos, IsCoinOf;
    var n := |items| - 1;
    var before := BlockIos(h, items[..n]);
    BlockCoins(h, items[..n]);
    CoinsToPrefix(items, n, n);
    if j < |before| {
      i, p := BlockCoinPlace(h, items[..n], j);
      CoinsToPrefix(items, n, i);
    } else {
      i, p := n, j - |before|;
      ItemCoin(h, n, items[n], p);
    }
  }

  lemma {:induction false} BlockCoinAt(h: nat, items: seq<Item>, i: nat, p: nat)
    requires i < |items| && p < CoinsIn(items[i])
    ensures CoinsTo(items, i) + p < |BlockIos(h, items)|
    ensures var r := BlockIos(h, items)[CoinsTo(items, i) + p];
            r.height == h && r.idx == i && IsCoinOf(r, items[i], p)
    decreases |items|
  {
    hide ItemIos, IsCoinOf;
    var n := |items| - 1;
    BlockCoins(h, items[..n]);
    CoinsToPrefix(items, n, i);
    ItemCoin(h, n, items[n], p);
    if i < n { BlockCoinAt(h, items[..n], i, p); }
  }

  /** A made coin's row is stored as it is, a spent one with an owner looked
      up. */
  lemma {:induction false} InsertsAs(ios: seq<IoRow>, rows: seq<IoRow>, k: nat)
    requires k < |rows|
    ensures |InsertAll(ios, rows)| == |ios| + |rows|
    ensures var r := InsertAll(ios, rows)[|ios| + k];
            if rows[k].dir == 1 then r == rows[k] else r == rows[k].(owner := r.owner, unlock := 0)
    decreases |rows|
  {
    hide OwnerOf;
    InsertKeys(ios, rows[..|rows| - 1]);
    if k < |rows| - 1 { InsertsAs(ios, rows[..|rows| - 1], k); }
  }

  lemma StoredCoin(ios: seq<IoRow>, rows: seq<IoRow>, k: nat, it: Item, p: nat)
    requires k < |rows| && IsCoinOf(rows[k], it, p)
    ensures |InsertAll(ios, rows)| == |ios| + |rows|
    ensures var r := InsertAll(ios, rows)[|ios| + k];
            IsCoinOf(r, it, p) && r.height == rows[k].height && r.idx == rows[k].idx
  {
    hide InsertAll;
    InsertsAs(ios, rows, k);
  }

  lemma {:induction false} CoinCount(bs: seq<Block>)
    ensures |Fold(bs).ios| == CoinsBefore(bs, |bs|)
    decreases |bs|
  {
    hide BlockIos, ItemRows, InsertAll;
    if bs != [] {
      var n := |bs| - 1;
      CoinCount(bs[..n]);
      CoinsPrefix(bs, n, n);
      BlockCoins(bs[n].header.height, bs[n].items);
      InsertKeys(Fold(bs[..n]).ios, BlockIos(bs[n].header.height, bs[n].items));
    }
  }

  lemma {:induction false} CoinPlace(bs: seq<Block>, j: nat) returns (k: nat, i: nat, p: nat)
    requires ChainOk(bs) && j < |Fold(bs).ios|
    ensures IsCoinRowOf(Fold(bs).ios[j], bs, k, i, p) && j == CoinsBefore(bs, k) + CoinsTo(bs[k].items, i) + p
    decreases |bs|
  {
    hide BlockIos, ItemRows, InsertAll, ItemOk, HeaderOk, IsCoinOf;
    var n := |bs| - 1;
    var before, rows := Fold(bs[..n]).ios, BlockIos(n + 1, bs[n].items);
    CoinCount(bs[..n]);
    CoinsPrefix(bs, n, n);
    InsertKeys(before, rows);
    if j < |before| {
      k, i, p := CoinPlace(bs[..n], j);
      CoinsPrefix(bs, n, k);
    } else {
      k := n;
      i, p := BlockCoinPlace(n + 1, bs[n].items, j - |before|);
      StoredCoin(before, rows, j - |before|, bs[n].items[i], p);
    }
  }

  lemma {:induction false} CoinAt(bs: seq<Block>, k: nat, i: nat, p: nat)
    requires ChainOk(bs) && k < |bs| && i < |bs[k].items| && p < CoinsIn(bs[k].items[i])
    ensures var j := CoinsBefore(bs, k) + CoinsTo(bs[k].items, i) + p;
            j < |Fold(bs).ios| && IsCoinRowOf(Fold(bs).ios[j], bs, k, i, p)
    decreases |bs|
  {
    hide BlockIos, ItemRows, InsertAll, ItemOk, HeaderOk, IsCoinOf;
    var n := |bs| - 1;
    var before, rows := Fold(bs[..n]).ios, BlockIos(n + 1, bs[n].items);
    CoinCount(bs[..n]);
    CoinsPrefix(bs, n, k);
    InsertKeys(before, rows);
    if k < n {
      CoinAt(bs[..n], k, i, p);
    } else {
      BlockCoinAt(n + 1, bs[n].items, i, p);
      StoredCoin(before, rows, CoinsTo(bs[n].items, i) + p, bs[n].items[i], p);
    }
  }

  /** Row j of the index is that of the p-th coin of item i of block k. */
  predicate CoinRow(bs: seq<Block>, j: int, k: nat, i: nat, p: nat) {
    0 <= j < |Fold(bs).ios| && IsCoinRowOf(Fold(bs).ios[j], bs, k, i, p)
  }

  /** Every coin an item with effects spends or makes has exactly one row, in
      its place. */
  lemma OneRowPerCoin(bs: seq<Block>, k: nat, i: nat, p: nat)
    requires ChainOk(bs) && k < |bs| && i < |bs[k].items| && p < CoinsIn(bs[k].items[i])
    ensures exists j :: CoinRow(bs, j, k, i, p)
    ensures forall x, y :: CoinRow(bs, x, k, i, p) && CoinRow(bs, y, k, i, p) ==> x == y
  {
    hide Fold, ChainOk;
    CoinAt(bs, k, i, p);
    assert CoinRow(bs, CoinsBefore(bs, k) + CoinsTo(bs[k].items, i) + p, k, i, p);
    forall x, y | CoinRow(bs, x, k, i, p) && CoinRow(bs, y, k, i, p) ensures x == y {
      var a, b, c := CoinPlace(bs, x);
      var d, e, f := CoinPlace(bs, y);
    }
  }

  /** And every coin row is one of those. */
  lemma EveryRowIsACoin(bs: seq<Block>, j: nat)
    requires ChainOk(bs) && j < |Fold(bs).ios|
    ensures exists k, i, p :: IsCoinRowOf(Fold(bs).ios[j], bs, k, i, p)
  {
    hide Fold, ChainOk;
    var k, i, p := CoinPlace(bs, j);
  }

  // ── what the structural checks check ────────────────────────────────

  function At(rows: seq<ItemRow>, h: nat): set<nat> {
    set j: nat | j < |rows| && rows[j].height == h
  }

  function AppliedOnes(rows: seq<ItemRow>, h: nat): set<nat> {
    set j: nat | j < |rows| && rows[j].height == h && rows[j].kind == 1 && rows[j].code == 0
  }

  lemma {:induction false} RowsAre(rows: seq<ItemRow>, h: nat)
    ensures RowsAt(rows, h) == |At(rows, h)|
    decreases |rows|
  {
    if rows != [] {
      var n := |rows| - 1;
      RowsAre(rows[..n], h);
      assert At(rows, h) == At(rows[..n], h) + if rows[n].height == h then {n} else {};
    }
  }

  lemma {:induction false} AppliedAre(rows: seq<ItemRow>, h: nat)
    ensures AppliedAt(rows, h) == |AppliedOnes(rows, h)|
    decreases |rows|
  {
    if rows != [] {
      var n := |rows| - 1;
      AppliedAre(rows[..n], h);
      var more: set<nat> := if rows[n].height == h && rows[n].kind == 1 && rows[n].code == 0 then {n} else {};
      assert AppliedOnes(rows, h) == AppliedOnes(rows[..n], h) + more;
    }
  }

  /** Heights 1 to last, one block row each, with as many item rows, and as
      many applied envelopes among them, as it says. */
  predicate BlockRowsHold(s: Snapshot) {
    |s.blocks| == s.last && forall i :: 0 <= i < |s.blocks| ==>
      && s.blocks[i].height == i + 1 && s.blocks[i].total == |At(s.items, i + 1)|
      && s.blocks[i].applied == |AppliedOnes(s.items, i + 1)|
  }

  /** An item row has a block row; a refused one has no effects, burns nothing
      and has no record, and one without effects has no record. */
  predicate ItemRowsHold(s: Snapshot) {
    forall i :: 0 <= i < |s.items| ==>
      && 0 < s.items[i].height <= s.last
      && (s.items[i].code != 0 ==> !s.items[i].effects && s.items[i].burned == 0 && s.items[i].record == 0)
      && (!s.items[i].effects ==> s.items[i].record == 0)
  }

  /** A coin row belongs to an applied item with effects. */
  predicate CoinRowsHold(s: Snapshot) { forall k :: 0 <= k < |s.ios| ==> Belongs(s.ios[k], s.items) }

  predicate Belongs(r: IoRow, rows: seq<ItemRow>) {
    exists i :: 0 <= i < |rows| && rows[i].height == r.height && rows[i].idx == r.idx && rows[i].code == 0 && rows[i].effects
  }

  /** For any tables, not only those of a sync. */
  lemma VerifyMeans(s: Snapshot)
    ensures Consistent(s) <==> BlockRowsHold(s) && ItemRowsHold(s) && CoinRowsHold(s)
  {
    hide RowsAt, AppliedAt;
    forall h ensures RowsAt(s.items, h) == |At(s.items, h)| && AppliedAt(s.items, h) == |AppliedOnes(s.items, h)| {
      RowsAre(s.items, h);
      AppliedAre(s.items, h);
    }
    assert BlocksMatch(s) <==> BlockRowsHold(s);
    assert ItemsMatch(s) <==> ItemRowsHold(s);
    assert IosMatch(s) <==> CoinRowsHold(s) by {
      forall k | 0 <= k < |s.ios| ensures Owned(s, s.ios[k].height, s.ios[k].idx) <==> Belongs(s.ios[k], s.items) {}
    }
  }
}
