/** The explorer's index as a pure function of the blocks it took: the rows
    a block adds, how a consumed coin finds its creating row, and the
    structural checks of `--verify-index`. */
module IndexFold {
  import opened Options

  const MAX_ITEMS := 16384
  const MAX_IN := 15
  const MAX_OUT := 17
  const ENVELOPE := 1
  const CLAIM := 2
  const LAST_RECORD_KIND := 6

  datatype Coin = Coin(id: nat, owner: nat, token: nat, amount: nat, unlock: nat)

  /** An item of a block as the node answers it; `record` is the kind of the
      record it wrote, 0 for none. */
  datatype Item = Item(kind: nat, code: nat, effects: bool, burned: nat, record: nat,
                       consumed: seq<nat>, created: seq<Coin>)

  datatype Header = Header(height: nat, id: nat, prev: nat, time: nat, proposer: seq<nat>, root: nat,
                           applied: nat, total: nat)

  datatype Block = Block(header: Header, items: seq<Item>)

  // ── what a block must look like ─────────────────────────────────────

  predicate ItemOk(it: Item) {
    && it.kind <= CLAIM
    && if it.effects then
         it.code == 0 && |it.consumed| <= MAX_IN && |it.created| <= MAX_OUT && it.record <= LAST_RECORD_KIND
       else
         it.burned == 0 && it.record == 0 && it.consumed == [] && it.created == []
  }

  predicate HeaderOk(h: Header) {
    h.height != 0 && h.total <= MAX_ITEMS && 0 < |h.proposer| <= 64
  }

  predicate BlockOk(b: Block, height: nat) {
    && HeaderOk(b.header) && b.header.height == height && |b.items| == b.header.total
    && forall i :: 0 <= i < |b.items| ==> ItemOk(b.items[i])
  }

  predicate ChainOk(bs: seq<Block>) { forall i :: 0 <= i < |bs| ==> BlockOk(bs[i], i + 1) }

  // ── rows ────────────────────────────────────────────────────────────

  datatype ItemRow = ItemRow(height: nat, idx: nat, kind: nat, code: nat, effects: bool, burned: nat, record: nat)

  datatype Owner = Owner(address: nat, token: nat, amount: nat)

  /** `dir` is 0 for a consumed coin and 1 for a created one; `owner` holds
      the three columns that are NULL when the creating row is not indexed. */
  datatype IoRow = IoRow(height: nat, idx: nat, dir: nat, pos: nat, coin: nat, owner: Option<Owner>, unlock: nat)

  function ItemRowOf(h: nat, i: nat, it: Item): ItemRow {
    ItemRow(h, i, it.kind, it.code, it.effects, it.burned, it.record)
  }

  function ItemRows(h: nat, items: seq<Item>): (r: seq<ItemRow>)
    ensures |r| == |items|
    ensures forall i :: 0 <= i < |items| ==> r[i] == ItemRowOf(h, i, items[i])
  {
    if items == [] then [] else
      var n := |items| - 1;
      ItemRows(h, items[..n]) + [ItemRowOf(h, n, items[n])]
  }

  function ConsumedRows(h: nat, i: nat, ids: seq<nat>): (r: seq<IoRow>)
    ensures |r| == |ids|
    ensures forall p :: 0 <= p < |ids| ==> r[p] == IoRow(h, i, 0, p, ids[p], None, 0)
  {
    if ids == [] then [] else
      var n := |ids| - 1;
      ConsumedRows(h, i, ids[..n]) + [IoRow(h, i, 0, n, ids[n], None, 0)]
  }

  function CreatedRow(h: nat, i: nat, p: nat, c: Coin): IoRow {
    IoRow(h, i, 1, p, c.id, Some(Owner(c.owner, c.token, c.amount)), c.unlock)
  }

  function CreatedRows(h: nat, i: nat, coins: seq<Coin>): (r: seq<IoRow>)
    ensures |r| == |coins|
    ensures forall p :: 0 <= p < |coins| ==> r[p] == CreatedRow(h, i, p, coins[p])
  {
    if coins == [] then [] else
      var n := |coins| - 1;
      CreatedRows(h, i, coins[..n]) + [CreatedRow(h, i, n, coins[n])]
  }

  /** The coin rows of one item: consumed before created, none without effects. */
  function ItemIos(h: nat, i: nat, it: Item): seq<IoRow> {
    if it.effects then ConsumedRows(h, i, it.consumed) + CreatedRows(h, i, it.created) else []
  }

  function BlockIos(h: nat, items: seq<Item>): seq<IoRow> {
    if items == [] then [] else
      var n := |items| - 1;
      BlockIos(h, items[..n]) + ItemIos(h, n, items[n])
  }

  // ── resolution and the fold ─────────────────────────────────────────

  predicate Creates(r: IoRow, coin: nat) { r.dir == 1 && r.coin == coin }

  /** The order in which the index looks for a coin's creating row. */
  predicate Before(a: IoRow, b: IoRow) {
    || a.height < b.height
    || (a.height == b.height && a.idx < b.idx)
    || (a.height == b.height && a.idx == b.idx && a.pos < b.pos)
  }

  /** The place of the least row creating the coin. */
  function Creating(ios: seq<IoRow>, coin: nat): (r: Option<nat>)
    ensures r.Some? ==> r.value < |ios| && Creates(ios[r.value], coin)
    ensures r.None? ==> forall k :: 0 <= k < |ios| ==> !Creates(ios[k], coin)
    ensures r.Some? ==> forall k :: 0 <= k < |ios| && Creates(ios[k], coin) ==> !Before(ios[k], ios[r.value])
  {
    if ios == [] then None else
      var n := |ios| - 1;
      var best := Creating(ios[..n], coin);
      if Creates(ios[n], coin) && (best.None? || Before(ios[n], ios[best.value])) then Some(n) else best
  }

  function OwnerOf(ios: seq<IoRow>, coin: nat): Option<Owner> {
    var at := Creating(ios, coin);
    if at.None? then None else ios[at.value].owner
  }

  /** A row as it is stored: a consumed one takes the owner of its coin. */
  function Stored(ios: seq<IoRow>, r: IoRow): IoRow {
    if r.dir == 1 then r else r.(owner := OwnerOf(ios, r.coin), unlock := 0)
  }

  function InsertAll(ios: seq<IoRow>, rows: seq<IoRow>): seq<IoRow> {
    if rows == [] then ios else
      var n := |rows| - 1;
      var before := InsertAll(ios, rows[..n]);
      before + [Stored(before, rows[n])]
  }

  datatype Snapshot = Snapshot(last: nat, blocks: seq<Header>, items: seq<ItemRow>, ios: seq<IoRow>)

  function AddBlock(s: Snapshot, b: Block): Snapshot {
    Snapshot(b.header.height, s.blocks + [b.header], s.items + ItemRows(b.header.height, b.items),
             InsertAll(s.ios, BlockIos(b.header.height, b.items)))
  }

  /** The index of the blocks, taken in order from nothing. */
  function Fold(bs: seq<Block>): Snapshot {
    if bs == [] then Snapshot(0, [], [], []) else AddBlock(Fold(bs[..|bs| - 1]), bs[|bs| - 1])
  }

  // ── consumed rows ───────────────────────────────────────────────────

  /** Every stored row is either a created one or carries the owner its
      coin had in the rows before it. */
  predicate Resolved(ios: seq<IoRow>) {
    forall k :: 0 <= k < |ios| && ios[k].dir != 1 ==> ios[k].owner == OwnerOf(ios[..k], ios[k].coin)
  }

  predicate OwnersKnown(ios: seq<IoRow>) {
    forall k :: 0 <= k < |ios| && ios[k].dir == 1 ==> ios[k].owner.Some?
  }

  lemma {:induction false} InsertResolved(ios: seq<IoRow>, rows: seq<IoRow>)
    requires Resolved(ios) && OwnersKnown(ios) && OwnersKnown(rows)
    ensures Resolved(InsertAll(ios, rows)) && OwnersKnown(InsertAll(ios, rows))
  {
    if rows != [] {
      var n := |rows| - 1;
      InsertResolved(ios, rows[..n]);
      var before := InsertAll(ios, rows[..n]);
      var after := InsertAll(ios, rows);
      forall k | 0 <= k < |after| && after[k].dir != 1
        ensures after[k].owner == OwnerOf(after[..k], after[k].coin)
      {
        assert after[..k] == before[..k];
        if k == |before| { assert before[..k] == before; }
      }
    }
  }

  lemma {:induction false} BlockOwnersKnown(h: nat, items: seq<Item>)
    ensures OwnersKnown(BlockIos(h, items))
  {
    if items != [] { BlockOwnersKnown(h, items[..|items| - 1]); }
  }

  lemma {:induction false} FoldResolved(bs: seq<Block>)
    ensures Resolved(Fold(bs).ios) && OwnersKnown(Fold(bs).ios)
  {
    if bs != [] {
      var n := |bs| - 1;
      FoldResolved(bs[..n]);
      BlockOwnersKnown(bs[n].header.height, bs[n].items);
      InsertResolved(Fold(bs[..n]).ios, BlockIos(bs[n].header.height, bs[n].items));
    }
  }

  // ── the structural checks ───────────────────────────────────────────

  /** How many rows have the height, and how many of those are applied
      envelopes. */
  function RowsAt(rows: seq<ItemRow>, h: nat): nat {
    if rows == [] then 0 else
      var n := |rows| - 1;
      RowsAt(rows[..n], h) + if rows[n].height == h then 1 else 0
  }

  function AppliedAt(rows: seq<ItemRow>, h: nat): nat {
    if rows == [] then 0 else
      var n := |rows| - 1;
      AppliedAt(rows[..n], h) + if rows[n].height == h && rows[n].kind == ENVELOPE && rows[n].code == 0 then 1 else 0
  }

  predicate Owned(s: Snapshot, height: nat, idx: nat) {
    exists i :: 0 <= i < |s.items| && s.items[i].height == height && s.items[i].idx == idx
      && s.items[i].code == 0 && s.items[i].effects
  }

  predicate BlocksMatch(s: Snapshot) {
    && |s.blocks| == s.last
    && forall i :: 0 <= i < |s.blocks| ==>
         && s.blocks[i].height == i + 1
         && s.blocks[i].total == RowsAt(s.items, i + 1)
         && s.blocks[i].applied == AppliedAt(s.items, i + 1)
  }

  predicate ItemsMatch(s: Snapshot) {
    forall i :: 0 <= i < |s.items| ==>
      && 1 <= s.items[i].height <= s.last
      && (s.items[i].record != 0 ==> s.items[i].code == 0 && s.items[i].effects)
      && (s.items[i].code != 0 ==> !s.items[i].effects && s.items[i].burned == 0)
  }

  predicate IosMatch(s: Snapshot) {
    forall k :: 0 <= k < |s.ios| ==> Owned(s, s.ios[k].height, s.ios[k].idx)
  }

  /** What `--verify-index` calls consistent. */
  predicate Consistent(s: Snapshot) { BlocksMatch(s) && ItemsMatch(s) && IosMatch(s) }

  /** The number of applied envelopes among a block's items. */
  function AppliedIn(items: seq<Item>): nat {
    if items == [] then 0 else
      var n := |items| - 1;
      AppliedIn(items[..n]) + if items[n].kind == ENVELOPE && items[n].code == 0 then 1 else 0
  }

  lemma {:induction false} CountsAppend(a: seq<ItemRow>, b: seq<ItemRow>, h: nat)
    ensures RowsAt(a + b, h) == RowsAt(a, h) + RowsAt(b, h)
    ensures AppliedAt(a + b, h) == AppliedAt(a, h) + AppliedAt(b, h)
  {
    if b == [] {
      assert a + b == a;
    } else {
      var n := |b| - 1;
      CountsAppend(a, b[..n], h);
      assert (a + b)[..|a| + n] == a + b[..n];
    }
  }

  lemma {:induction false} CountsOfBlock(height: nat, items: seq<Item>, h: nat)
    ensures RowsAt(ItemRows(height, items), h) == if h == height then |items| else 0
    ensures AppliedAt(ItemRows(height, items), h) == if h == height then AppliedIn(items) else 0
  {
    if items != [] {
      var n := |items| - 1;
      CountsOfBlock(height, items[..n], h);
      assert ItemRows(height, items)[..n] == ItemRows(height, items[..n]);
    }
  }

  /** The counts of every height in the index are those of its block. */
  lemma {:induction false} FoldCounts(bs: seq<Block>, h: nat)
    requires ChainOk(bs)
    ensures RowsAt(Fold(bs).items, h) == if 1 <= h <= |bs| then |bs[h - 1].items| else 0
    ensures AppliedAt(Fold(bs).items, h) == if 1 <= h <= |bs| then AppliedIn(bs[h - 1].items) else 0
  {
    if bs != [] {
      var n := |bs| - 1;
      FoldCounts(bs[..n], h);
      CountsOfBlock(n + 1, bs[n].items, h);
      CountsAppend(Fold(bs[..n]).items, ItemRows(n + 1, bs[n].items), h);
    }
  }

  lemma {:induction false} FoldBlocks(bs: seq<Block>)
    requires ChainOk(bs)
    ensures Fold(bs).last == |bs| == |Fold(bs).blocks|
    ensures forall i :: 0 <= i < |bs| ==> Fold(bs).blocks[i] == bs[i].header
  {
    hide InsertAll, BlockIos, ItemRows, ItemOk;
    if bs != [] { FoldBlocks(bs[..|bs| - 1]); }
  }

  lemma {:induction false} FoldItems(bs: seq<Block>)
    requires ChainOk(bs)
    ensures ItemsMatch(Fold(bs))
  {
    FoldBlocks(bs);
    if bs != [] {
      var n := |bs| - 1;
      FoldBlocks(bs[..n]);
      FoldItems(bs[..n]);
    }
  }

  lemma {:induction false} InsertKeys(ios: seq<IoRow>, rows: seq<IoRow>)
    ensures |InsertAll(ios, rows)| == |ios| + |rows|
    ensures forall k :: 0 <= k < |ios| ==> InsertAll(ios, rows)[k] == ios[k]
    ensures forall k :: 0 <= k < |rows| ==>
      InsertAll(ios, rows)[|ios| + k] == rows[k].(owner := InsertAll(ios, rows)[|ios| + k].owner,
                                                  unlock := InsertAll(ios, rows)[|ios| + k].unlock)
  {
    if rows != [] { InsertKeys(ios, rows[..|rows| - 1]); }
  }

  /** Every coin row of a block belongs to an item of it with effects. */
  lemma {:induction false} BlockIosOwned(h: nat, items: seq<Item>, k: nat)
    requires k < |BlockIos(h, items)|
    ensures var r := BlockIos(h, items)[k]; r.height == h && r.idx < |items| && items[r.idx].effects
  {
    var n := |items| - 1;
    if k < |BlockIos(h, items[..n])| { BlockIosOwned(h, items[..n], k); }
  }

  lemma {:induction false} FoldIos(bs: seq<Block>)
    requires ChainOk(bs)
    ensures IosMatch(Fold(bs))
  {
    if bs != [] {
      var n := |bs| - 1;
      FoldIos(bs[..n]);
      AddIos(Fold(bs[..n]), bs[n]);
    }
  }

  lemma AddIos(s: Snapshot, b: Block)
    requires IosMatch(s) && BlockOk(b, b.header.height)
    ensures IosMatch(AddBlock(s, b))
  {
    hide InsertAll, ItemRows, BlockIos;
    var t := AddBlock(s, b);
    InsertKeys(s.ios, BlockIos(b.header.height, b.items));
    forall k | 0 <= k < |t.ios| ensures Owned(t, t.ios[k].height, t.ios[k].idx) {
      if k < |s.ios| {
        OwnedStays(s, t, s.ios[k].height, s.ios[k].idx);
      } else {
        NewIoOwned(s, b, k - |s.ios|);
      }
    }
  }

  lemma NewIoOwned(s: Snapshot, b: Block, k: nat)
    requires BlockOk(b, b.header.height) && k < |BlockIos(b.header.height, b.items)|
    ensures var r := BlockIos(b.header.height, b.items)[k]; Owned(AddBlock(s, b), r.height, r.idx)
  {
    hide InsertAll, BlockIos;
    BlockIosOwned(b.header.height, b.items, k);
    var i := BlockIos(b.header.height, b.items)[k].idx;
    assert AddBlock(s, b).items[|s.items| + i] == ItemRowOf(b.header.height, i, b.items[i]);
  }

  lemma OwnedStays(s: Snapshot, t: Snapshot, height: nat, idx: nat)
    requires s.items <= t.items && Owned(s, height, idx)
    ensures Owned(t, height, idx)
  {
    var i :| 0 <= i < |s.items| && s.items[i].height == height && s.items[i].idx == idx
      && s.items[i].code == 0 && s.items[i].effects;
    assert t.items[i] == s.items[i];
  }

  /** The index of any blocks that passed the page checks is consistent if
      and only if every header counts its applied envelopes right, the one
      figure the page checks do not look at. */
  lemma VerifyIff(bs: seq<Block>)
    requires ChainOk(bs)
    ensures Consistent(Fold(bs)) <==>
      forall i :: 0 <= i < |bs| ==> bs[i].header.applied == AppliedIn(bs[i].items)
  {
    hide Fold, ItemsMatch, IosMatch, RowsAt, AppliedAt, AppliedIn;
    FoldBlocks(bs);
    FoldItems(bs);
    FoldIos(bs);
    forall i | 0 <= i < |bs|
      ensures RowsAt(Fold(bs).items, i + 1) == bs[i].header.total
      ensures AppliedAt(Fold(bs).items, i + 1) == AppliedIn(bs[i].items)
    {
      FoldCounts(bs, i + 1);
    }
    var s := Fold(bs);
    assert BlocksMatch(s) <==> forall i :: 0 <= i < |bs| ==> bs[i].header.applied == AppliedIn(bs[i].items) by {
      if BlocksMatch(s) {
        forall i | 0 <= i < |bs| ensures bs[i].header.applied == AppliedIn(bs[i].items) {
          assert s.blocks[i] == bs[i].header;
        }
      }
    }
  }
}
