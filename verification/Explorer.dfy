/** The explorer's sync loop: pages into a batch, a batch into the index in
    one transaction, heights in order. After any ticks, with requests and
    statements failing anywhere, the index is the fold of the blocks 1..last. */
module Explorer {
  import opened ChainReset
  import opened IndexFold
  import opened Options
  import opened Pages

  const HEIGHTS_PER_TICK := 256

  // ── the batch ───────────────────────────────────────────────────────

  lemma RowsGrow(height: nat, got: seq<Item>, it: Item)
    ensures ItemRows(height, got + [it]) == ItemRows(height, got) + [ItemRowOf(height, |got|, it)]
    ensures BlockIos(height, got + [it]) == BlockIos(height, got) + ItemIos(height, |got|, it)
  {
    assert (got + [it])[..|got|] == got;
  }

  lemma NoRows(height: nat)
    ensures ItemRows(height, []) == [] && BlockIos(height, []) == []
  {
  }

  /** An item's consumed rows, then its created ones. */
  method AppendIos(ios: seq<IoRow>, height: nat, idx: nat, it: Item) returns (r: seq<IoRow>)
    ensures r == ios + ItemIos(height, idx, it)
  {
    r := ios;
    if !it.effects { return; }
    ghost var spent, made := ConsumedRows(height, idx, it.consumed), CreatedRows(height, idx, it.created);
    for c := 0 to |it.consumed|
      invariant r == ios + spent[..c]
    {
      r := r + [IoRow(height, idx, 0, c, it.consumed[c], None, 0)];
    }
    assert spent[..|spent|] == spent;
    for c := 0 to |it.created|
      invariant r == ios + spent + made[..c]
    {
      r := r + [CreatedRow(height, idx, c, it.created[c])];
    }
    assert made[..|made|] == made;
    assert ios + spent + made == ios + (spent + made);
  }

  /** One height being collected. `got` are the items taken so far. */
  class Batch {
    var header: Option<Header>
    var items: seq<ItemRow>
    var ios: seq<IoRow>
    ghost var got: seq<Item>

    constructor ()
      ensures Valid() && header == None && got == []
    {
      header, items, ios, got := None, [], [], [];
    }

    ghost predicate Valid()
      reads this
    {
      if header.None? then items == [] && ios == [] && got == []
      else HeaderOk(header.value) && Holds(header.value.height, got) && AllOk(got)
    }

    ghost predicate Holds(height: nat, all: seq<Item>)
      reads this
    {
      items == ItemRows(height, all) && ios == BlockIos(height, all)
    }

    method AppendItem(height: nat, it: Item)
      requires Holds(height, got)
      modifies this`items, this`ios, this`got
      ensures got == old(got) + [it] && Holds(height, got)
    {
      hide ItemRows, BlockIos, ItemIos;
      RowsGrow(height, got, it);
      ios := AppendIos(ios, height, |items|, it);
      items := items + [ItemRowOf(height, |items|, it)];
      got := got + [it];
    }

    method CheckPage(page: Page) returns (ok: bool)
      requires Valid()
      ensures ok == Fits(header, |got|, page)
    {
      if header.Some? {
        if header.value != page.header { return false; }
      } else {
        if page.header.height == 0 || page.header.total > MAX_ITEMS { return false; }
        if |page.header.proposer| == 0 || |page.header.proposer| > 64 { return false; }
      }
      var n := |items|;
      if n + |page.items| > page.header.total { return false; }
      var j := 0;
      while j < |page.items|
        invariant 0 <= j <= |page.items|
        invariant forall k :: 0 <= k < j ==> page.items[k].index == n + k && ItemOk(page.items[k].item)
      {
        if page.items[j].index != n + j || !ItemOk(page.items[j].item) { return false; }
        j := j + 1;
      }
      return true;
    }

    /** The whole page is checked before anything is appended. */
    method Extract(page: Page) returns (ok: bool)
      requires Valid()
      modifies this
      ensures Valid()
      ensures ok == Fits(old(header), |old(got)|, page)
      ensures ok ==> header == Some(page.header) && got == old(got) + Contents(page.items)
      ensures !ok ==> header == old(header) && got == old(got)
    {
      hide ItemRows, BlockIos, ItemOk, HeaderOk, Contents;
      ok := CheckPage(page);
      if !ok { return; }
      if header.None? {
        header := Some(page.header);
        NoRows(page.header.height);
      }
      AppendAll(page.header.height, page.items);
      assert AllOk(got);
    }

    method AppendAll(height: nat, sent: seq<Sent>)
      requires Holds(height, got)
      modifies this`items, this`ios, this`got
      ensures Holds(height, got) && got == old(got) + Contents(sent)
    {
      hide ItemRows, BlockIos;
      for j := 0 to |sent|
        invariant Holds(height, got)
        invariant got == old(got) + Contents(sent)[..j]
      {
        AppendItem(height, sent[j].item);
      }
      assert Contents(sent)[..|sent|] == Contents(sent);
    }
  }

  /** Requests the pages of one height until a page names no next index;
      answers[p] is what the p-th request brings, None a failure. */
  method CollectBlock(height: nat, answers: seq<Option<Page>>, batch: Batch) returns (ok: bool)
    requires batch.Valid() && batch.header == None
    modifies batch
    ensures batch.Valid()
    ensures ok <==> height != 0 && Collected(height, answers).Some?
    ensures ok ==> batch.header.Some? && Collected(height, answers) == Some(Block(batch.header.value, batch.got))
  {
    if height == 0 { return false; }
    var pages := 0;
    while pages <= MAX_ITEMS
      invariant 0 <= pages && batch.Valid()
      invariant Collected(height, answers) == Assemble(height, answers, pages, batch.header, batch.got)
      decreases MAX_ITEMS + 1 - pages
    {
      if pages >= |answers| || answers[pages].None? { return false; }
      var page := answers[pages].value;
      if page.header.height != height { return false; }
      var fits := batch.Extract(page);
      if !fits { return false; }
      if page.next.None? { return |batch.items| == batch.header.value.total; }
      if page.next.value != |batch.items| { return false; }
      pages := pages + 1;
    }
    return false;
  }

  // ── the checks before a write ───────────────────────────────────────

  predicate ItemRowFits(r: ItemRow, height: nat, i: nat) {
    r.height == height && r.idx == i && (!r.effects ==> r.record == 0 && r.burned == 0)
  }

  predicate IoRowFits(r: IoRow, height: nat, items: seq<ItemRow>) {
    && r.height == height && r.idx < |items| && r.dir <= 1
    && items[r.idx].effects && (r.dir == 1 ==> r.owner.Some?)
  }

  predicate Ordered(a: IoRow, b: IoRow) {
    || b.idx > a.idx
    || (b.idx == a.idx && b.dir > a.dir)
    || (b.idx == a.idx && b.dir == a.dir && b.pos > a.pos)
  }

  predicate RowsFit(height: nat, items: seq<ItemRow>, ios: seq<IoRow>) {
    && (forall i :: 0 <= i < |items| ==> ItemRowFits(items[i], height, i))
    && (forall k :: 0 <= k < |ios| ==> IoRowFits(ios[k], height, items))
    && (forall k :: 0 < k < |ios| ==> Ordered(ios[k - 1], ios[k]))
  }

  predicate BatchFits(header: Option<Header>, items: seq<ItemRow>, ios: seq<IoRow>) {
    && header.Some? && header.value.height != 0 && |items| == header.value.total
    && RowsFit(header.value.height, items, ios)
  }

  method CheckBatch(header: Option<Header>, items: seq<ItemRow>, ios: seq<IoRow>) returns (ok: bool)
    ensures ok == BatchFits(header, items, ios)
  {
    if header.None? || header.value.height == 0 || |items| != header.value.total { return false; }
    var height := header.value.height;
    var i := 0;
    while i < |items|
      invariant 0 <= i <= |items|
      invariant forall j :: 0 <= j < i ==> ItemRowFits(items[j], height, j)
    {
      if !ItemRowFits(items[i], height, i) { return false; }
      i := i + 1;
    }
    var k := 0;
    while k < |ios|
      invariant 0 <= k <= |ios|
      invariant forall j :: 0 <= j < k ==> IoRowFits(ios[j], height, items)
      invariant forall j :: 0 < j < k ==> Ordered(ios[j - 1], ios[j])
    {
      if !IoRowFits(ios[k], height, items) { return false; }
      if k > 0 && !Ordered(ios[k - 1], ios[k]) { return false; }
      k := k + 1;
    }
    return true;
  }

  lemma {:induction false} IndexAscends(ios: seq<IoRow>, j: nat, k: nat)
    requires j <= k < |ios| && forall m :: 0 < m < |ios| ==> Ordered(ios[m - 1], ios[m])
    ensures ios[j].idx <= ios[k].idx
    decreases k
  {
    if j < k { IndexAscends(ios, j, k - 1); }
  }

  lemma {:induction false} BlockRowsFit(height: nat, items: seq<Item>)
    requires AllOk(items)
    ensures RowsFit(height, ItemRows(height, items), BlockIos(height, items))
  {
    if items != [] {
      var n := |items| - 1;
      BlockRowsFit(height, items[..n]);
      RowsGrow(height, items[..n], items[n]);
      assert items[..n] + [items[n]] == items;
      ItemFits(height, ItemRows(height, items[..n]), BlockIos(height, items[..n]), items[n]);
    }
  }

  lemma ItemFits(height: nat, rows: seq<ItemRow>, ios: seq<IoRow>, it: Item)
    requires ItemOk(it) && RowsFit(height, rows, ios)
    ensures RowsFit(height, rows + [ItemRowOf(height, |rows|, it)], ios + ItemIos(height, |rows|, it))
  {
    var rows', ios' := rows + [ItemRowOf(height, |rows|, it)], ios + ItemIos(height, |rows|, it);
    forall k | 0 <= k < |ios'| ensures IoRowFits(ios'[k], height, rows') {
      if k < |ios| { assert IoRowFits(ios[k], height, rows); }
    }
    forall k | 0 < k < |ios'| ensures Ordered(ios'[k - 1], ios'[k]) {
      if k < |ios| {
        assert Ordered(ios[k - 1], ios[k]);
      } else if k == |ios| {
        assert IoRowFits(ios[k - 1], height, rows);
      }
    }
  }

  /** A block that passed the page checks passes the checks of the write. */
  lemma BlockFits(b: Block, height: nat)
    requires BlockOk(b, height)
    ensures BatchFits(Some(b.header), ItemRows(height, b.items), BlockIos(height, b.items))
  {
    BlockRowsFit(height, b.items);
  }

  // ── the index ───────────────────────────────────────────────────────

  /** The place of the least row creating the coin, as the resolve query
      orders them. */
  method FindCreating(ios: seq<IoRow>, coin: nat) returns (r: Option<nat>)
    ensures r == Creating(ios, coin)
  {
    r := None;
    for n := 0 to |ios|
      invariant r == Creating(ios[..n], coin)
    {
      if Creates(ios[n], coin) && (r.None? || Before(ios[n], ios[r.value])) { r := Some(n); }
      assert ios[..n + 1][..n] == ios[..n];
    }
    assert ios[..|ios|] == ios;
  }

  /** Begin, the block row, the item and coin rows, the watermark, commit. */
  function WriteSteps(items: seq<ItemRow>, ios: seq<IoRow>): nat { 4 + |items| + |ios| }

  class Index {
    var last: nat
    var blocks: seq<Header>
    var items: seq<ItemRow>
    var ios: seq<IoRow>
    ghost var taken: seq<Block>

    constructor ()
      ensures Valid() && taken == []
    {
      last, blocks, items, ios, taken := 0, [], [], [], [];
    }

    function Snap(): Snapshot
      reads this
    {
      Snapshot(last, blocks, items, ios)
    }

    /** The index is the fold of the blocks taken, each of which passed the
        checks for its height. */
    ghost predicate Valid()
      reads this
    {
      Snap() == Fold(taken) && ChainOk(taken)
    }

    method InsertIo(row: IoRow)
      modifies this`ios
      ensures ios == old(ios) + [Stored(old(ios), row)]
    {
      if row.dir == 1 {
        ios := ios + [row];
      } else {
        var at := FindCreating(ios, row.coin);
        var owner := if at.None? then None else ios[at.value].owner;
        ios := ios + [row.(owner := owner, unlock := 0)];
      }
    }

    /** The items, each followed by its coin rows; `budget` statements
        succeed before one fails. */
    method InsertRows(rows: seq<ItemRow>, ioRows: seq<IoRow>, height: nat, budget: int) returns (ok: bool)
      requires RowsFit(height, rows, ioRows)
      modifies this`items, this`ios
      ensures ok <==> |rows| + |ioRows| <= budget
      ensures ok ==> items == old(items) + rows && ios == InsertAll(old(ios), ioRows)
    {
      hide InsertAll, Stored;
      var i, k := 0, 0;
      NothingInserted(ios);
      assert ioRows[..0] == [];
      while i < |rows|
        invariant 0 <= i <= |rows| && 0 <= k <= |ioRows|
        invariant items == old(items) + rows[..i]
        invariant ios == InsertAll(old(ios), ioRows[..k])
        invariant forall m :: k <= m < |ioRows| ==> i <= ioRows[m].idx
        invariant i + k > 0 ==> i + k <= budget
      {
        if i + k >= budget { return false; }
        items := items + [rows[i]];
        while k < |ioRows| && ioRows[k].idx == i
          invariant 0 <= k <= |ioRows|
          invariant items == old(items) + rows[..i + 1]
          invariant ios == InsertAll(old(ios), ioRows[..k])
          invariant forall m :: k <= m < |ioRows| ==> i <= ioRows[m].idx
          invariant i + 1 + k <= budget
        {
          if i + 1 + k >= budget { return false; }
          InsertIo(ioRows[k]);
          InsertNext(old(ios), ioRows, k);
          k := k + 1;
        }
        forall m | k <= m < |ioRows| ensures i < ioRows[m].idx { IndexAscends(ioRows, k, m); }
        i := i + 1;
      }
      assert k < |ioRows| ==> IoRowFits(ioRows[k], height, rows);
      assert rows[..i] == rows && ioRows[..k] == ioRows;
      return |rows| + |ioRows| <= budget;
    }

    /** One transaction: every row and the watermark, or nothing. */
    method WriteHeight(header: Option<Header>, rows: seq<ItemRow>, ioRows: seq<IoRow>, budget: nat) returns (ok: bool)
      modifies this`last, this`blocks, this`items, this`ios
      ensures ok <==>
        BatchFits(header, rows, ioRows) && header.value.height == old(last) + 1 && WriteSteps(rows, ioRows) <= budget
      ensures ok ==> Snap() == Snapshot(old(last) + 1, old(blocks) + [header.value], old(items) + rows,
                                        InsertAll(old(ios), ioRows))
      ensures !ok ==> Snap() == old(Snap())
    {
      hide InsertAll, RowsFit;
      ok := CheckBatch(header, rows, ioRows);
      if !ok || budget == 0 { return false; }
      var before := Snap();
      if header.value.height != last + 1 || budget == 1 { return false; }
      blocks := blocks + [header.value];
      ok := InsertRows(rows, ioRows, header.value.height, budget - 2);
      if ok && |rows| + |ioRows| + 4 <= budget {
        last := header.value.height;
        return true;
      }
      last, blocks, items, ios := before.last, before.blocks, before.items, before.ios;
      return false;
    }

    /** The next height: collected, checked and written, or the index stays
        as it was. */
    method TakeHeight(answers: seq<Option<Page>>, budget: nat) returns (ok: bool)
      requires Valid()
      modifies this
      ensures Valid()
      ensures var got := Collected(old(last) + 1, answers);
              && (ok <==> got.Some? && RowCount(got.value) <= budget)
              && taken == if ok then old(taken) + [got.value] else old(taken)
    {
      hide InsertAll, BatchFits, RowsFit, ItemRows, BlockIos, BlockOk;
      var height := last + 1;
      FoldBlocks(taken);
      var batch := new Batch();
      ok := CollectBlock(height, answers, batch);
      if !ok { return; }
      ghost var b := Block(batch.header.value, batch.got);
      CollectedOk(height, answers);
      BlockFits(b, height);
      HeightOf(b, height);
      ok := WriteHeight(batch.header, batch.items, batch.ios, budget);
      if ok {
        Takes(taken, b);
        taken := taken + [b];
      }
    }

    /** Heights in order up to the tip, at most 256 of them. The n-th height
        of the walk gets the n-th list of answers and the n-th budget; 1 says
        that more heights wait. */
    method Walk(tip: nat, requests: seq<Request>) returns (rc: int)
      requires Valid()
      modifies this
      ensures Valid()
      ensures old(taken) <= taken && last <= old(last) + HEIGHTS_PER_TICK
      ensures old(last) < last ==> last <= tip
      ensures rc == 0 ==> tip <= last
      ensures rc == 1 ==> last == old(last) + HEIGHTS_PER_TICK < tip
      ensures rc == -1 ==> last < tip && Stuck(last, requests, last - old(last))
      ensures rc == 0 || rc == 1 || rc == -1
      ensures Took(|old(taken)|, taken, requests)
    {
      hide Fold, ChainOk, Collected, Took, RowCount;
      FoldLast(taken, Snap());
      TookNone(taken, requests);
      var done := 0;
      while last < tip
        invariant Valid() && old(taken) <= taken
        invariant last == old(last) + done == |taken| && done <= HEIGHTS_PER_TICK && (done > 0 ==> last <= tip)
        invariant Took(|old(taken)|, taken, requests)
        decreases tip - last
      {
        if done >= HEIGHTS_PER_TICK { return 1; }
        if done >= |requests| { return -1; }
        ghost var was, got := taken, Collected(last + 1, requests[done].answers);
        var ok := TakeHeight(requests[done].answers, requests[done].budget);
        if !ok { return -1; }
        FoldLast(taken, Snap());
        TookNext(|old(taken)|, was, got.value, requests);
        done := done + 1;
      }
      return 0;
    }
  }

  /** What one height of a walk meets: the answers to its page requests and
      the number of statements that succeed. */
  datatype Request = Request(answers: seq<Option<Page>>, budget: nat)

  /** The blocks from `start` on are what the requests collected. */
  predicate Took(start: nat, taken: seq<Block>, requests: seq<Request>) {
    && |taken| - start <= |requests|
    && forall n :: 0 <= n < |taken| - start ==>
         Collected(start + n + 1, requests[n].answers) == Some(taken[start + n])
  }

  /** The n-th height of a walk could not be had: no server, pages that make
      no block, or a statement that failed. */
  predicate Stuck(last: nat, requests: seq<Request>, n: int) {
    n < 0 || n >= |requests| ||
    var got := Collected(last + 1, requests[n].answers);
    got.None? || RowCount(got.value) > requests[n].budget
  }

  /** Every page that arrives in the walk from `start` is cut from the
      chain's block of the height asked for; past the chain's end nothing
      arrives. */
  predicate HonestWalk(chain: seq<Block>, start: nat, requests: seq<Request>) {
    forall n :: 0 <= n < |requests| ==>
      if start + n < |chain| then Honest(requests[n].answers, chain[start + n])
      else Collected(start + n + 1, requests[n].answers) == None
  }

  /** A walk over honest pages goes on along the chain, whichever servers
      answered and wherever the pages were cut. */
  lemma {:induction false} HonestTook(chain: seq<Block>, start: nat, taken: seq<Block>, requests: seq<Request>)
    requires ChainOk(chain) && start <= |taken| && taken[..start] <= chain
    requires Took(start, taken, requests) && HonestWalk(chain, start, requests)
    ensures taken <= chain
  {
    hide Collected;
    if start < |taken| {
      var n := |taken| - 1;
      assert taken[..n][..start] == taken[..start];
      HonestTook(chain, start, taken[..n], requests);
      var k := n - start;
      assert Collected(start + k + 1, requests[k].answers) == Some(taken[start + k]);
      if start + k < |chain| {
        assert BlockOk(chain[n], n + 1);
        CollectedHonest(n + 1, requests[k].answers, chain[n]);
      }
      assert taken == taken[..n] + [taken[n]];
    } else {
      assert taken[..start] == taken;
    }
  }

  lemma TookNone(taken: seq<Block>, requests: seq<Request>)
    ensures Took(|taken|, taken, requests)
  {
  }

  lemma TookNext(start: nat, taken: seq<Block>, b: Block, requests: seq<Request>)
    requires start <= |taken| < start + |requests| && Took(start, taken, requests)
    requires Collected(|taken| + 1, requests[|taken| - start].answers) == Some(b)
    ensures Took(start, taken + [b], requests)
  {
    hide Collected;
  }

  lemma FoldLast(taken: seq<Block>, s: Snapshot)
    requires ChainOk(taken) && s == Fold(taken)
    ensures s.last == |taken|
  {
    FoldBlocks(taken);
  }

  lemma HeightOf(b: Block, height: nat)
    requires BlockOk(b, height)
    ensures b.header.height == height
  {
  }

  lemma NothingInserted(ios: seq<IoRow>)
    ensures InsertAll(ios, []) == ios
  {
  }

  lemma InsertNext(ios: seq<IoRow>, rows: seq<IoRow>, k: nat)
    requires k < |rows|
    ensures InsertAll(ios, rows[..k + 1]) ==
      InsertAll(ios, rows[..k]) + [Stored(InsertAll(ios, rows[..k]), rows[k])]
  {
    assert rows[..k + 1][..k] == rows[..k];
  }

  function RowCount(b: Block): nat {
    WriteSteps(ItemRows(b.header.height, b.items), BlockIos(b.header.height, b.items))
  }

  lemma Takes(taken: seq<Block>, b: Block)
    requires ChainOk(taken) && BlockOk(b, |taken| + 1)
    ensures ChainOk(taken + [b]) && Fold(taken + [b]) == AddBlock(Fold(taken), b)
  {
    assert (taken + [b])[..|taken|] == taken;
  }

  // ── the tick ────────────────────────────────────────────────────────

  /** What a tick sees of the chain: an all-zero id is no id. */
  datatype Tip = Tip(chain: nat, server: nat, height: nat)

  /** The tip names the reference chain, or the first one and it was stored. */
  predicate Follows(tip: Option<Tip>, reference: Option<nat>, persisted: bool) {
    tip.Some? && tip.value.chain != 0 && if reference.Some? then reference.value == tip.value.chain else persisted
  }

  class Syncer {
    var index: Index
    var tracker: Tracker

    /** A fresh index, with the reference found in it. */
    constructor (stored: Option<nat>)
      ensures Valid() && index.taken == [] && tracker.reference == stored && fresh(index) && fresh(tracker)
    {
      index := new Index();
      tracker := new Tracker(stored);
    }

    ghost predicate Valid()
      reads this, index, tracker
    {
      index.Valid() && tracker.Valid()
    }

    /** One poll: the verdict on the chain id first, heights only when it is
        the reference's. `persisted` is whether a first reference could be
        stored, `archived` whether a stale index could be moved away. */
    method Tick(tip: Option<Tip>, persisted: bool, archived: bool, requests: seq<Request>) returns (rc: int)
      requires Valid()
      modifies this, index, tracker
      ensures Valid() && tracker == old(tracker)
      ensures index == old(index) ==>
        && old(index.taken) <= index.taken
        && Took(|old(index.taken)|, index.taken, requests)
        && (index.taken != old(index.taken) ==> tip.Some? && tracker.reference == Some(tip.value.chain))
      ensures index != old(index) <==>
        && archived && tip.Some? && tip.value.chain != 0 && old(tracker.reference).Some?
        && tip.value.chain != old(tracker.reference).value
        && TwoServers(Streak(old(tracker.history) + [Observation(tip.value.chain, tip.value.server)],
                             old(tracker.reference).value))
      ensures index != old(index) ==> index.taken == [] && tracker.reference == Some(tip.value.chain)
      ensures index == old(index) ==>
        tracker.reference == if Follows(tip, old(tracker.reference), persisted) then Some(tip.value.chain)
                             else old(tracker.reference)
      ensures Follows(tip, old(tracker.reference), persisted) ==>
        && (rc == 0 ==> tip.value.height <= |index.taken|)
        && (rc == 1 ==> |index.taken| == |old(index.taken)| + 256 < tip.value.height)
        && (rc != 0 && rc != 1 ==>
              |index.taken| < tip.value.height
              && Stuck(|index.taken|, requests, |index.taken| - |old(index.taken)|))
    {
      hide Took, Fold, ChainOk, Streak, TwoServers, Seen, Stuck;
      TookNone(index.taken, requests);
      FoldLast(index.taken, index.Snap());
      if tip.None? || tip.value.chain == 0 { return -1; }
      var first := tracker.reference.None?;
      var v := tracker.Feed(tip.value.chain, tip.value.server);
      if first && !persisted {
        tracker.Forget();
        return -1;
      }
      if v == Pending { return 0; }
      if v == Confirmed {
        if !archived { return -1; }
        tracker.Adopt();
        index := new Index();
        return 0;
      }
      rc := index.Walk(tip.value.height, requests);
      FoldLast(index.taken, index.Snap());
    }
  }
}
