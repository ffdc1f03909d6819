/** A block travels in pages from servers that may fail, rotate or disagree.
    The pages collected for a height make one block or nothing, and honest
    pages, however they are cut, make the chain's block. */
module Pages {
  import opened IndexFold
  import opened Options

  datatype Sent = Sent(index: nat, item: Item)

  datatype Page = Page(header: Header, items: seq<Sent>, next: Option<nat>)

  function Contents(sent: seq<Sent>): (r: seq<Item>)
    ensures |r| == |sent|
    ensures forall j :: 0 <= j < |sent| ==> r[j] == sent[j].item
  {
    if sent == [] then [] else Contents(sent[..|sent| - 1]) + [sent[|sent| - 1].item]
  }

  /** A page continues a batch of n items under the given header, or starts
      one. */
  predicate Fits(header: Option<Header>, n: nat, page: Page) {
    && (if header.Some? then header.value == page.header else HeaderOk(page.header))
    && n + |page.items| <= page.header.total
    && forall j :: 0 <= j < |page.items| ==> page.items[j].index == n + j && ItemOk(page.items[j].item)
  }

  /** The block the answers to the page requests of one height make, from
      request `at` on; None is a failed request. */
  function Assemble(height: nat, answers: seq<Option<Page>>, at: nat, header: Option<Header>, got: seq<Item>):
    Option<Block>
    decreases |answers| - at
  {
    if at > MAX_ITEMS || at >= |answers| || answers[at].None? then None else
      var page := answers[at].value;
      if page.header.height != height || !Fits(header, |got|, page) then None else
        var all := got + Contents(page.items);
        if page.next.None? then
          if |all| == page.header.total then Some(Block(page.header, all)) else None
        else if page.next.value != |all| then None
        else Assemble(height, answers, at + 1, Some(page.header), all)
  }

  function Collected(height: nat, answers: seq<Option<Page>>): Option<Block> {
    Assemble(height, answers, 0, None, [])
  }

  predicate AllOk(items: seq<Item>) { forall i :: 0 <= i < |items| ==> ItemOk(items[i]) }

  lemma {:induction false} AssembleOk(height: nat, answers: seq<Option<Page>>, at: nat, header: Option<Header>,
                                      got: seq<Item>)
    requires header.Some? ==> HeaderOk(header.value)
    requires AllOk(got)
    ensures var r := Assemble(height, answers, at, header, got); r.Some? ==> BlockOk(r.value, height)
    decreases |answers| - at
  {
    if at <= MAX_ITEMS && at < |answers| && answers[at].Some? && Fits(header, |got|, answers[at].value) {
      var page := answers[at].value;
      var all := got + Contents(page.items);
      assert AllOk(all);
      AssembleOk(height, answers, at + 1, Some(page.header), all);
    }
  }

  /** Whatever the servers answer, a collected block passed every check. */
  lemma CollectedOk(height: nat, answers: seq<Option<Page>>)
    ensures Collected(height, answers).Some? ==> BlockOk(Collected(height, answers).value, height)
  {
    AssembleOk(height, answers, 0, None, []);
  }

  // ── honest pages ────────────────────────────────────────────────────

  /** The page is cut from the block: its header, and items where the block
      has them. */
  predicate CutFrom(page: Page, b: Block) {
    && page.header == b.header
    && forall j :: 0 <= j < |page.items| ==>
         page.items[j].index < |b.items| && page.items[j].item == b.items[page.items[j].index]
  }

  predicate Honest(answers: seq<Option<Page>>, b: Block) {
    forall p :: 0 <= p < |answers| && answers[p].Some? ==> CutFrom(answers[p].value, b)
  }

  lemma {:induction false} AssembleHonest(height: nat, answers: seq<Option<Page>>, at: nat, header: Option<Header>,
                                          got: seq<Item>, b: Block)
    requires Honest(answers, b) && got <= b.items && |b.items| == b.header.total
    ensures var r := Assemble(height, answers, at, header, got); r.Some? ==> r.value == b
    decreases |answers| - at
  {
    hide Honest, Fits, Contents;
    if at <= MAX_ITEMS && at < |answers| && answers[at].Some? && Fits(header, |got|, answers[at].value) {
      var page := answers[at].value;
      HonestStep(answers, at, header, got, b);
      AssembleHonest(height, answers, at + 1, Some(page.header), got + Contents(page.items), b);
    }
  }

  lemma HonestStep(answers: seq<Option<Page>>, at: nat, header: Option<Header>, got: seq<Item>, b: Block)
    requires Honest(answers, b) && got <= b.items && |b.items| == b.header.total
    requires at < |answers| && answers[at].Some? && Fits(header, |got|, answers[at].value)
    ensures var page := answers[at].value;
            var all := got + Contents(page.items);
            page.header == b.header && all <= b.items && (|all| == b.header.total ==> all == b.items)
  {
    Continues(got, answers[at].value, b);
  }

  lemma Continues(got: seq<Item>, page: Page, b: Block)
    requires CutFrom(page, b) && got <= b.items
    requires |b.items| == b.header.total && Fits(Some(page.header), |got|, page)
    ensures got + Contents(page.items) <= b.items
  {
    var all := got + Contents(page.items);
    forall i | 0 <= i < |all| ensures all[i] == b.items[i] {
      if i >= |got| { assert page.items[i - |got|].index == i; }
    }
  }

  /** Pages cut from the chain's block, in any pages and any order, make
      that block or nothing. */
  lemma CollectedHonest(height: nat, answers: seq<Option<Page>>, b: Block)
    requires Honest(answers, b) && |b.items| == b.header.total
    ensures Collected(height, answers).Some? ==> Collected(height, answers).value == b
  {
    AssembleHonest(height, answers, 0, None, [], b);
  }

  // ── pages in order are enough ───────────────────────────────────────

  /** Answers that serve the block from item `from` on without a gap: every
      page but the last carries an item. */
  ghost predicate Serves(answers: seq<Option<Page>>, at: nat, from: nat, b: Block)
    decreases |answers| - at
  {
    && at < |answers| && answers[at].Some?
    && var page := answers[at].value;
       && CutFrom(page, b)
       && from + |page.items| <= |b.items|
       && (forall j :: 0 <= j < |page.items| ==> page.items[j].index == from + j)
       && if page.next.None? then from + |page.items| == |b.items|
          else page.items != [] && page.next.value == from + |page.items| && Serves(answers, at + 1, page.next.value, b)
  }

  lemma {:induction false} AssembleServed(height: nat, answers: seq<Option<Page>>, at: nat, header: Option<Header>,
                                          got: seq<Item>, b: Block)
    requires BlockOk(b, height) && got <= b.items
    requires header == None || header == Some(b.header)
    requires at <= |got| && Serves(answers, at, |got|, b)
    ensures Assemble(height, answers, at, header, got) == Some(b)
    decreases |answers| - at
  {
    var page := answers[at].value;
    var all := got + Contents(page.items);
    assert Fits(header, |got|, page);
    Continues(got, page, b);
    if page.next.Some? {
      AssembleServed(height, answers, at + 1, Some(page.header), all, b);
    } else {
      assert all == b.items;
    }
  }

  /** A server that answers in order gets the block through, within the
      bound on the number of pages. */
  lemma CollectedServed(height: nat, answers: seq<Option<Page>>, b: Block)
    requires BlockOk(b, height) && Serves(answers, 0, 0, b)
    ensures Collected(height, answers) == Some(b)
  {
    AssembleServed(height, answers, 0, None, [], b);
  }

  // ── exactly what is collected ───────────────────────────────────────

  predicate FineItem(it: Item) {
    && it.kind <= 2
    && if it.effects then it.code == 0 && |it.consumed| <= 15 && |it.created| <= 17 && it.record <= 6
       else it.burned == 0 && it.record == 0 && it.consumed == [] && it.created == []
  }

  /** A block of this height as the explorer takes it. */
  predicate Fine(b: Block, height: nat) {
    && b.header.height == height > 0 && |b.items| == b.header.total <= 16384 && 1 <= |b.header.proposer| <= 64
    && forall i :: 0 <= i < |b.items| ==> FineItem(b.items[i])
  }

  lemma FineIs(b: Block, height: nat)
    ensures Fine(b, height) <==> BlockOk(b, height)
  {
  }

  /** The answers from request `at` on are the block from item `from` on: every
      page has its header and its items in order, names as next the item that
      follows, and the last one names none. */
  ghost predicate Arrives(answers: seq<Option<Page>>, at: nat, from: nat, b: Block)
    decreases |answers| - at
  {
    && at <= 16384 && at < |answers| && answers[at].Some?
    && var page := answers[at].value;
       && page.header == b.header && from + |page.items| <= |b.items|
       && (forall j :: 0 <= j < |page.items| ==>
             page.items[j].index == from + j && page.items[j].item == b.items[from + j])
       && if page.next.None? then from + |page.items| == |b.items|
          else page.next.value == from + |page.items| && Arrives(answers, at + 1, page.next.value, b)
  }

  lemma {:induction false} AssembleGives(height: nat, answers: seq<Option<Page>>, at: nat, header: Option<Header>,
                                         got: seq<Item>, b: Block)
    requires Assemble(height, answers, at, header, got) == Some(b)
    ensures got <= b.items && (header.Some? ==> header.value == b.header) && Arrives(answers, at, |got|, b)
    decreases |answers| - at
  {
    hide ItemOk, HeaderOk;
    var page := answers[at].value;
    var all := got + Contents(page.items);
    if page.next.Some? { AssembleGives(height, answers, at + 1, Some(page.header), all, b); }
    assert all <= b.items;
    forall j | 0 <= j < |page.items| ensures page.items[j].item == b.items[|got| + j] {
      assert all[|got| + j] == page.items[j].item;
    }
    assert got <= all;
  }

  lemma {:induction false} AssembleTakes(height: nat, answers: seq<Option<Page>>, at: nat, header: Option<Header>,
                                         got: seq<Item>, b: Block)
    requires BlockOk(b, height) && got <= b.items && (header == None || header == Some(b.header))
    requires Arrives(answers, at, |got|, b)
    ensures Assemble(height, answers, at, header, got) == Some(b)
    decreases |answers| - at
  {
    hide ItemOk, HeaderOk;
    var page := answers[at].value;
    var all := got + Contents(page.items);
    forall i | 0 <= i < |all| ensures all[i] == b.items[i] {
      if i >= |got| { assert all[i] == page.items[i - |got|].item; }
    }
    assert all <= b.items;
    assert Fits(header, |got|, page);
    if page.next.Some? {
      AssembleTakes(height, answers, at + 1, Some(page.header), all, b);
    } else {
      assert all == b.items && b == Block(page.header, all);
    }
  }

  /** A block is collected exactly when it is fine and the answers are it. */
  lemma CollectedIff(height: nat, answers: seq<Option<Page>>, b: Block)
    ensures Collected(height, answers) == Some(b) <==> Fine(b, height) && Arrives(answers, 0, 0, b)
  {
    hide Assemble, Fine, BlockOk, Arrives;
    FineIs(b, height);
    if Collected(height, answers) == Some(b) {
      CollectedOk(height, answers);
      AssembleGives(height, answers, 0, None, [], b);
    }
    if Fine(b, height) && Arrives(answers, 0, 0, b) { AssembleTakes(height, answers, 0, None, [], b); }
  }
}
