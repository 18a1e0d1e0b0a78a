// scripts/label-open-issues.ts: fetchOpenLabelItemBatches.
//
// The generator's yields are collected in order; fetchPage's answers are a sequence of
// pages that goes on until a page has no next one or the limit is covered.
module PageBatches {
  import opened Wrappers

  const WORK_BATCH_SIZE: nat := 500

  datatype Node = Node(number: int, title: string, body: Option<string>, labels: Option<seq<string>>)

  datatype Item = Item(number: int, title: string, body: string, labels: seq<string>)

  datatype Page = Page(nodes: seq<Node>, totalCount: Option<int>, hasNextPage: bool, endCursor: Option<string>)

  datatype Batch = Batch(batchIndex: int, items: seq<Item>, totalCount: int, fetchedCount: int)

  function ItemOf(n: Node): Item
  {
    Item(n.number, n.title, if n.body.Some? then n.body.value else "", if n.labels.Some? then n.labels.value else [])
  }

  // An item has its node's number and title, and its body and labels where it has them.
  lemma {:induction false} ItemOfNode(n: Node)
    ensures ItemOf(n).number == n.number && ItemOf(n).title == n.title
    ensures n.body.Some? ==> ItemOf(n).body == n.body.value
    ensures n.body.None? ==> ItemOf(n).body == ""
    ensures n.labels.Some? ==> ItemOf(n).labels == n.labels.value
    ensures n.labels.None? ==> ItemOf(n).labels == []
  {
  }

  // ----- What is to be fetched, and how it is cut up -----

  function PageItems(nodes: seq<Node>): (items: seq<Item>)
    ensures |items| == |nodes|
  {
    seq(|nodes|, i requires 0 <= i < |nodes| => ItemOf(nodes[i]))
  }

  // Everything the pages hold, up to the first page without a next one.
  function AllItems(pages: seq<Page>): seq<Item>
  {
    if pages == [] then []
    else PageItems(pages[0].nodes) + if pages[0].hasNextPage then AllItems(pages[1..]) else []
  }

  predicate Ends(pages: seq<Page>)
  {
    pages != [] && (pages[0].hasNextPage ==> Ends(pages[1..]))
  }

  // None is the default of no limit.
  type Limit = Option<int>

  predicate Below(n: int, limit: Limit) { limit.Some? ==> n < limit.value }

  // What is left of a limit after n items.
  function Room(limit: Limit, n: int): Limit { if limit.None? then None else Some(limit.value - n) }

  function Take(items: seq<Item>, limit: Limit): seq<Item>
  {
    if Below(|items|, limit) then items else if limit.value <= 0 then [] else items[..limit.value]
  }

  function Concat(batches: seq<Batch>): seq<Item>
  {
    if batches == [] then [] else Concat(batches[..|batches| - 1]) + batches[|batches| - 1].items
  }

  // Numbered from one, non-empty, each with the running total of items so far.
  ghost predicate Numbered(batches: seq<Batch>)
  {
    forall i | 0 <= i < |batches| ::
      && batches[i].batchIndex == i + 1
      && batches[i].items != []
      && batches[i].fetchedCount == |Concat(batches[..i + 1])|
  }

  ghost predicate Full(batches: seq<Batch>)
  {
    forall i | 0 <= i < |batches| :: |batches[i].items| == WORK_BATCH_SIZE
  }

  // ----- The program -----

  // The loop's variables: what has been yielded, what is pending, and the counters.
  datatype Fetch = Fetch(out: seq<Batch>, results: seq<Item>, fetched: int, totalCount: int, batchIndex: int)

  // Full batches yielded, a partial one pending, and counters that say so.
  ghost predicate Consistent(f: Fetch)
  {
    && Numbered(f.out) && Full(f.out) && |f.results| < WORK_BATCH_SIZE
    && f.fetched == |Concat(f.out) + f.results| && f.batchIndex == |f.out| + 1
  }

  ghost function Seen(f: Fetch): seq<Item> { Concat(f.out) + f.results }

  lemma ConcatOne(batches: seq<Batch>, b: Batch)
    ensures Concat(batches + [b]) == Concat(batches) + b.items
  {
    assert (batches + [b])[..|batches|] == batches;
  }

  lemma NumberedOne(batches: seq<Batch>, b: Batch)
    requires Numbered(batches) && b.batchIndex == |batches| + 1 && b.items != []
    requires b.fetchedCount == |Concat(batches) + b.items|
    ensures Numbered(batches + [b])
  {
    var all := batches + [b];
    ConcatOne(batches, b);
    forall i | 0 <= i < |all|
      ensures all[i].batchIndex == i + 1 && all[i].items != [] && all[i].fetchedCount == |Concat(all[..i + 1])|
    {
      if i < |batches| {
        assert all[..i + 1] == batches[..i + 1];
      } else {
        assert all[..i + 1] == all;
      }
    }
  }

  // The body of the inner loop for one node.
  method Push(f: Fetch, node: Node) returns (g: Fetch)
    requires Consistent(f)
    ensures Consistent(g) && Seen(g) == Seen(f) + [ItemOf(node)]
    ensures g.fetched == f.fetched + 1 && g.totalCount == f.totalCount
    ensures YieldedBetween(f, g)
  {
    g := f.(results := f.results + [ItemOf(node)], fetched := f.fetched + 1);
    assert Concat(f.out) + (f.results + [ItemOf(node)]) == Seen(f) + [ItemOf(node)];
    if |g.results| >= WORK_BATCH_SIZE {
      var b := Batch(g.batchIndex, g.results, g.totalCount, g.fetched);
      ConcatOne(g.out, b);
      NumberedOne(g.out, b);
      g := g.(out := g.out + [b], results := [], batchIndex := g.batchIndex + 1);
      assert Seen(g) == Concat(g.out);
    }
  }

  // What g has yielded beyond f carries f's total and a count of items read since.
  ghost predicate YieldedBetween(f: Fetch, g: Fetch)
  {
    && |f.out| <= |g.out| && g.out[..|f.out|] == f.out
    && forall i | |f.out| <= i < |g.out| ::
         g.out[i].totalCount == f.totalCount && f.fetched < g.out[i].fetchedCount <= g.fetched
  }

  lemma {:induction false} YieldedChain(f: Fetch, g: Fetch, h: Fetch)
    requires YieldedBetween(f, g) && YieldedBetween(g, h)
    requires f.fetched <= g.fetched <= h.fetched && f.totalCount == g.totalCount
    ensures YieldedBetween(f, h)
  {
    assert h.out[..|f.out|] == h.out[..|g.out|][..|f.out|];
    forall i | |f.out| <= i < |h.out|
      ensures h.out[i].totalCount == f.totalCount && f.fetched < h.out[i].fetchedCount <= h.fetched
    {
      if i < |g.out| { assert h.out[i] == h.out[..|g.out|][i] == g.out[i]; }
    }
  }

  // The inner loop: one page, cut off at the limit.
  method PushPage(f: Fetch, nodes: seq<Node>, limit: Limit) returns (g: Fetch)
    requires Consistent(f) && Below(f.fetched - 1, limit)
    ensures Consistent(g) && g.totalCount == f.totalCount && YieldedBetween(f, g)
    ensures g.fetched == AtMost(f.fetched + |nodes|, limit)
    ensures Seen(g) == Seen(f) + Take(PageItems(nodes), Room(limit, f.fetched))
  {
    g := f;
    var i := 0;
    while i < |nodes| && Below(g.fetched, limit)
      invariant 0 <= i <= |nodes| && Consistent(g) && g.fetched == f.fetched + i && Below(g.fetched - 1, limit)
      invariant g.totalCount == f.totalCount && YieldedBetween(f, g)
      invariant Seen(g) == Seen(f) + PageItems(nodes)[..i]
    {
      var h := Push(g, nodes[i]);
      YieldedChain(f, g, h);
      assert PageItems(nodes)[..i + 1] == PageItems(nodes)[..i] + [ItemOf(nodes[i])];
      g, i := h, i + 1;
    }
    assert Take(PageItems(nodes), Room(limit, f.fetched)) == PageItems(nodes)[..i];
  }

  function AtMost(n: nat, limit: Limit): nat
  {
    if Below(n, limit) then n else if limit.value > 0 then limit.value else 0
  }

  // ----- Which pages are asked for, and the totals they announce -----

  // Nodes on the first k pages.
  function NodeCount(pages: seq<Page>, k: nat): nat
    requires k <= |pages|
  {
    if k == 0 then 0 else NodeCount(pages, k - 1) + |pages[k - 1].nodes|
  }

  // The last total announced by the first k pages.
  function LatestTotal(pages: seq<Page>, k: nat): int
    requires k <= |pages|
  {
    if k == 0 then 0
    else if pages[k - 1].totalCount.Some? then pages[k - 1].totalCount.value
    else LatestTotal(pages, k - 1)
  }

  // It is that of the last page among them that announces one, or 0.
  lemma {:induction false} LatestTotalIs(pages: seq<Page>, k: nat, j: nat)
    requires j < k <= |pages| && pages[j].totalCount.Some? && forall i | j < i < k :: pages[i].totalCount.None?
    ensures LatestTotal(pages, k) == pages[j].totalCount.value && LatestTotal(pages, 0) == 0
    decreases k
  {
    if j < k - 1 { LatestTotalIs(pages, k - 1, j); }
  }

  // The first n pages are needed: each has a predecessor that announces it, and is asked
  // for while the limit is not reached.
  ghost predicate Needed(pages: seq<Page>, n: nat, limit: Limit)
    requires n <= |pages|
  {
    forall k | 0 <= k < n :: Below(NodeCount(pages, k), limit) && (k > 0 ==> pages[k - 1].hasNextPage)
  }

  // And no further one is.
  ghost predicate Enough(pages: seq<Page>, n: nat, limit: Limit)
    requires n <= |pages|
  {
    !Below(NodeCount(pages, n), limit) || (n > 0 && !pages[n - 1].hasNextPage)
  }

  // A batch that was cut on page k carries the total known on that page.
  ghost predicate CutOn(pages: seq<Page>, k: nat, b: Batch)
    requires 0 < k <= |pages|
  {
    NodeCount(pages, k - 1) < b.fetchedCount <= NodeCount(pages, k) && b.totalCount == LatestTotal(pages, k)
  }

  ghost predicate CutBy(pages: seq<Page>, n: nat, b: Batch)
    requires n <= |pages|
  {
    exists k | 0 < k <= n :: CutOn(pages, k, b)
  }

  ghost predicate Timely(out: seq<Batch>, pages: seq<Page>, n: nat)
    requires n <= |pages|
  {
    forall i | 0 <= i < |out| :: CutBy(pages, n, out[i])
  }

  lemma {:induction false} TimelyStep(f: Fetch, g: Fetch, pages: seq<Page>, n: nat)
    requires n < |pages| && Timely(f.out, pages, n) && YieldedBetween(f, g)
    requires f.totalCount == LatestTotal(pages, n + 1)
    requires f.fetched == NodeCount(pages, n) && g.fetched <= NodeCount(pages, n + 1)
    ensures Timely(g.out, pages, n + 1)
  {
    forall i | 0 <= i < |g.out| ensures CutBy(pages, n + 1, g.out[i]) {
      if i < |f.out| {
        assert g.out[i] == g.out[..|f.out|][i] == f.out[i];
        assert CutBy(pages, n, f.out[i]);
      } else {
        assert CutOn(pages, n + 1, g.out[i]);
      }
    }
  }

  // ----- The outer loop -----

  // After n pages.
  ghost predicate Progress(f: Fetch, pages: seq<Page>, n: nat, limit: Limit)
  {
    && n <= |pages| && Consistent(f)
    && f.fetched == AtMost(NodeCount(pages, n), limit) && f.totalCount == LatestTotal(pages, n)
    && Needed(pages, n, limit) && Timely(f.out, pages, n)
  }

  lemma {:induction false} TakeMore(a: seq<Item>, b: seq<Item>, limit: Limit)
    requires Below(-1, limit)
    ensures Take(a + b, limit) == Take(a, limit) + Take(b, Room(limit, |Take(a, limit)|))
  {
    if !Below(|a|, limit) {
      assert Take(b, Room(limit, |Take(a, limit)|)) == [];
      assert (a + b)[..limit.value] == a[..limit.value];
    } else if !Below(|a| + |b|, limit) {
      assert (a + b)[..limit.value] == a + b[..limit.value - |a|];
    }
  }

  // What was read, and what is still to be read from page n on.
  ghost function Owed(f: Fetch, pages: seq<Page>, n: nat, limit: Limit): seq<Item>
    requires n <= |pages|
  {
    Seen(f) + Take(AllItems(pages[n..]), Room(limit, f.fetched))
  }

  // Reading page n moves its items from one to the other.
  lemma {:induction false} OwedStep(f: Fetch, g: Fetch, pages: seq<Page>, n: nat, limit: Limit)
    requires n < |pages| && Below(f.fetched, limit)
    requires g.fetched == f.fetched + |Take(PageItems(pages[n].nodes), Room(limit, f.fetched))|
    requires Seen(g) == Seen(f) + Take(PageItems(pages[n].nodes), Room(limit, f.fetched))
    ensures Owed(f, pages, n, limit) == if pages[n].hasNextPage then Owed(g, pages, n + 1, limit) else Seen(g)
  {
    var here, room, rest := PageItems(pages[n].nodes), Room(limit, f.fetched), AfterPage(pages, n);
    UnfoldPage(pages, n);
    MoveOver(Seen(f), here, rest, room);
    assert Room(room, |Take(here, room)|) == Room(limit, g.fetched);
    assert !pages[n].hasNextPage ==> Seen(g) + Take(rest, Room(limit, g.fetched)) == Seen(g);
  }

  // The items of the pages after page n, if it announces any.
  function AfterPage(pages: seq<Page>, n: nat): seq<Item>
    requires n < |pages|
  {
    if pages[n].hasNextPage then AllItems(pages[n + 1..]) else []
  }

  lemma {:induction false} UnfoldPage(pages: seq<Page>, n: nat)
    requires n < |pages|
    ensures AllItems(pages[n..]) == PageItems(pages[n].nodes) + AfterPage(pages, n)
  {
    assert pages[n..][1..] == pages[n + 1..];
  }

  lemma {:induction false} MoveOver(seen: seq<Item>, here: seq<Item>, rest: seq<Item>, room: Limit)
    requires Below(-1, room)
    ensures seen + Take(here + rest, room) == (seen + Take(here, room)) + Take(rest, Room(room, |Take(here, room)|))
  {
    TakeMore(here, rest, room);
  }

  lemma {:induction false} ProgressStep(f: Fetch, h: Fetch, g: Fetch, pages: seq<Page>, n: nat, limit: Limit)
    requires n < |pages| && Progress(f, pages, n, limit) && Below(f.fetched, limit)
    requires n > 0 ==> pages[n - 1].hasNextPage
    requires h == f.(totalCount := LatestTotal(pages, n + 1))
    requires Consistent(g) && g.totalCount == h.totalCount && YieldedBetween(h, g)
    requires g.fetched == AtMost(f.fetched + |pages[n].nodes|, limit)
    ensures Progress(g, pages, n + 1, limit)
  {
    TimelyStep(h, g, pages, n);
  }

  // One turn of the outer loop.
  method ReadPage(f: Fetch, pages: seq<Page>, n: nat, limit: Limit) returns (g: Fetch)
    requires n < |pages| && Progress(f, pages, n, limit) && Below(f.fetched, limit)
    requires n > 0 ==> pages[n - 1].hasNextPage
    ensures Progress(g, pages, n + 1, limit)
    ensures Owed(f, pages, n, limit) == if pages[n].hasNextPage then Owed(g, pages, n + 1, limit) else Seen(g)
  {
    var page := pages[n];
    var h := f.(totalCount := if page.totalCount.Some? then page.totalCount.value else f.totalCount);
    g := PushPage(h, page.nodes, limit);
    ProgressStep(f, h, g, pages, n, limit);
    OwedStep(f, g, pages, n, limit);
  }

  lemma {:induction false} OwedAtStart(pages: seq<Page>, limit: Limit, f: Fetch)
    requires f == Fetch([], [], 0, 0, 1)
    ensures Progress(f, pages, 0, limit) && Owed(f, pages, 0, limit) == Take(AllItems(pages), limit)
  {
    assert pages[0..] == pages;
  }

  // What is pending at the end becomes the last batch.
  method Flush(f: Fetch) returns (batches: seq<Batch>)
    requires Consistent(f)
    ensures Concat(batches) == Seen(f) && Numbered(batches)
    ensures f.out <= batches && |batches| <= |f.out| + 1
    ensures |batches| > |f.out| ==>
              batches[|f.out|].totalCount == f.totalCount && |batches[|f.out|].items| < WORK_BATCH_SIZE
  {
    batches := f.out;
    if f.results != [] {
      var b := Batch(f.batchIndex, f.results, f.totalCount, f.fetched);
      ConcatOne(f.out, b);
      NumberedOne(f.out, b);
      batches := f.out + [b];
    }
  }

  // The cursor that page k is asked for with: where the page before it ended.
  function CursorFor(pages: seq<Page>, k: nat): Option<string>
    requires k <= |pages|
  {
    if k == 0 then None else pages[k - 1].endCursor
  }

  ghost predicate Follow(cursors: seq<Option<string>>, pages: seq<Page>, asked: nat)
    requires asked <= |pages|
  {
    |cursors| == asked && forall k | 0 <= k < asked :: cursors[k] == CursorFor(pages, k)
  }

  // How the batches cut the items: all but a last one, which may be short, are full.
  ghost predicate Chunked(batches: seq<Batch>)
  {
    && (forall i | 0 <= i < |batches| - 1 :: |batches[i].items| == WORK_BATCH_SIZE)
    && (batches != [] ==> |batches[|batches| - 1].items| <= WORK_BATCH_SIZE)
  }

  // Full batches carry the total known when they were cut, a short one the last known.
  ghost predicate TotalsOf(batches: seq<Batch>, pages: seq<Page>, asked: nat)
    requires asked <= |pages|
  {
    forall i | 0 <= i < |batches| ::
      if |batches[i].items| < WORK_BATCH_SIZE then batches[i].totalCount == LatestTotal(pages, asked)
      else CutBy(pages, asked, batches[i])
  }

  lemma {:induction false} FlushCuts(f: Fetch, batches: seq<Batch>, pages: seq<Page>, asked: nat, limit: Limit)
    requires Progress(f, pages, asked, limit) && f.out <= batches && |batches| <= |f.out| + 1
    requires |batches| > |f.out| ==>
               batches[|f.out|].totalCount == f.totalCount && |batches[|f.out|].items| < WORK_BATCH_SIZE
    ensures Chunked(batches) && TotalsOf(batches, pages, asked)
  {
    assert forall i | 0 <= i < |f.out| :: batches[i] == f.out[i];
  }

  lemma {:induction false} FollowMore(cursors: seq<Option<string>>, pages: seq<Page>, n: nat)
    requires n < |pages| && Follow(cursors, pages, n)
    ensures Follow(cursors + [CursorFor(pages, n)], pages, n + 1)
  {
  }

  // The pages from n on end, or cover the limit.
  ghost predicate Supplied(pages: seq<Page>, n: nat, limit: Limit)
    requires n <= |pages|
  {
    Ends(pages[n..]) || !Below(NodeCount(pages, |pages|), limit)
  }

  // Between pages: there is another one to read, and nothing was lost.
  ghost predicate OnTheWay(f: Fetch, pages: seq<Page>, n: nat, limit: Limit)
    requires n <= |pages|
  {
    && Supplied(pages, n, limit) && (n > 0 ==> pages[n - 1].hasNextPage)
    && Owed(f, pages, n, limit) == Take(AllItems(pages), limit)
  }

  lemma {:induction false} StillOnTheWay(f: Fetch, g: Fetch, pages: seq<Page>, n: nat, limit: Limit)
    requires 0 < n <= |pages| && OnTheWay(f, pages, n - 1, limit) && Supplied(pages, n, limit)
    requires pages[n - 1].hasNextPage && Owed(f, pages, n - 1, limit) == Owed(g, pages, n, limit)
    ensures OnTheWay(g, pages, n, limit)
  {
  }

  lemma {:induction false} PageIsThere(f: Fetch, pages: seq<Page>, n: nat, limit: Limit)
    requires Progress(f, pages, n, limit) && Supplied(pages, n, limit) && Below(f.fetched, limit)
    ensures n < |pages| && (pages[n].hasNextPage ==> Supplied(pages, n + 1, limit))
  {
    if n < |pages| {
      assert pages[n..][0] == pages[n] && pages[n..][1..] == pages[n + 1..];
    }
  }

  lemma {:induction false} NothingOwed(f: Fetch, pages: seq<Page>, n: nat, limit: Limit)
    requires Progress(f, pages, n, limit) && !Below(f.fetched, limit)
    ensures Owed(f, pages, n, limit) == Seen(f) && Enough(pages, n, limit)
  {
    assert Take(AllItems(pages[n..]), Room(limit, f.fetched)) == [];
  }

  // The outer loop: exactly the pages needed are read, each asked for with the cursor that
  // the one before it ended with.
  method ReadPages(pages: seq<Page>, limit: Limit) returns (f: Fetch, asked: nat, cursors: seq<Option<string>>)
    requires Ends(pages) || !Below(NodeCount(pages, |pages|), limit)
    ensures Progress(f, pages, asked, limit) && Enough(pages, asked, limit)
    ensures Seen(f) == Take(AllItems(pages), limit) && Follow(cursors, pages, asked)
  {
    asked, cursors := 0, [];
    var after: Option<string> := None;
    f := Fetch([], [], 0, 0, 1);
    OwedAtStart(pages, limit, f);
    assert pages[0..] == pages;
    while Below(f.fetched, limit)
      invariant Progress(f, pages, asked, limit)
      invariant OnTheWay(f, pages, asked, limit)
      invariant Follow(cursors, pages, asked) && after == CursorFor(pages, asked)
      decreases |pages| - asked
    {
      PageIsThere(f, pages, asked, limit);
      ghost var g := f;
      FollowMore(cursors, pages, asked);
      cursors := cursors + [after];
      f := ReadPage(f, pages, asked, limit);
      asked := asked + 1;
      if !pages[asked - 1].hasNextPage {
        return;
      }
      StillOnTheWay(g, f, pages, asked, limit);
      after := pages[asked - 1].endCursor;
    }
    NothingOwed(f, pages, asked, limit);
  }

  // The batches are the first `limit` items, in order, cut into pieces of exactly 500
  // but for the last, numbered, each with its running total and the total then known.
  // Exactly the pages needed for that are asked for.
  method FetchBatches(pages: seq<Page>, limit: Limit)
    returns (batches: seq<Batch>, asked: nat, cursors: seq<Option<string>>)
    requires Ends(pages) || !Below(NodeCount(pages, |pages|), limit)
    ensures Concat(batches) == Take(AllItems(pages), limit)
    ensures Numbered(batches) && Chunked(batches)
    ensures asked <= |pages| && Needed(pages, asked, limit) && Enough(pages, asked, limit)
    ensures TotalsOf(batches, pages, asked) && Follow(cursors, pages, asked)
  {
    var f;
    f, asked, cursors := ReadPages(pages, limit);
    batches := Flush(f);
    FlushCuts(f, batches, pages, asked, limit);
  }
}
