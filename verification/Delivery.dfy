/** End-to-end delivery: what an uncancelled task sends for a range of heights. */
module Delivery {
  import opened Blocks
  import Control
  import opened Flow
  import opened Machine
  import opened Merging
  import opened Pages
  import Progress
  import opened Ranges
  import Stream
  import opened Sums
  import opened Termination

  // ----- what should be delivered, said without pages, chunks or goroutines -----

  /** A transaction with the hash, time and chain of a block. */
  function WithBlock(b: Block): Tx -> multiset<Item> {
    (tx: Tx) => multiset{TxItem(tx, b.hash, b.time, b.chainID)}
  }

  /** One height: its block, and each of its transactions with that block's hash and time. */
  ghost function HeightDelivery(c: Config, chain: u64 -> Block, h: u64): multiset<Item> {
    multiset{BlockItem(chain(h))} + Bag(WithBlock(chain(h)), c.txs(h))
  }

  ghost function HeightBag(c: Config, chain: u64 -> Block): u64 -> multiset<Item> {
    (h: u64) => HeightDelivery(c, chain, h)
  }

  /** The heights lo, lo + 1, ..., hi. */
  function Heights(lo: u64, hi: int): seq<u64>
    requires hi < TWO_64
  {
    if hi < lo then [] else seq(hi - lo + 1, i requires 0 <= i < hi - lo + 1 => lo + i)
  }

  /** Everything a task for the heights lo..hi should deliver. */
  ghost function RangeDelivery(c: Config, chain: u64 -> Block, lo: u64, hi: int): multiset<Item>
    requires hi < TWO_64
  {
    Bag(HeightBag(c, chain), Heights(lo, hi))
  }

  // ----- a chunk delivers its heights -----

  lemma {:induction false} SameBag(f: Tx -> multiset<Item>, g: Tx -> multiset<Item>, txs: seq<Tx>)
    requires forall tx :: tx in txs ==> f(tx) == g(tx)
    ensures Bag(f, txs) == Bag(g, txs)
  {
    if txs != [] {
      SameBag(f, g, txs[1..]);
    }
  }

  /** The pages 1..n of a height stand for the first n pages of its transactions. */
  lemma {:induction false} PagesAdd(c: Config, blocks: map<u64, Block>, h: u64, n: nat)
    ensures PagesOutput(c, blocks, h, 1, n) == Bag(Converted(blocks), FirstPages(c.txs(h), n))
  {
    if n > 0 {
      PagesAdd(c, blocks, h, n - 1);
      LastPageIssued(c, blocks, h, n);
      BagConcat(Converted(blocks), FirstPages(c.txs(h), n - 1), PageOf(c.txs(h), n));
    }
  }

  lemma HeightDelivered(c: Config, chain: u64 -> Block, blocks: map<u64, Block>, h: u64)
    requires Faithful(c, chain) && Wanted(c, h) && h in blocks && blocks[h] == chain(h)
    ensures HeightOutput(c, blocks, h) == HeightDelivery(c, chain, h)
  {
    HeightDeliveredIff(c, chain, blocks, h);
  }

  lemma {:induction false} SingletonsSize(f: Tx -> multiset<Item>, txs: seq<Tx>)
    requires forall tx :: |f(tx)| == 1
    ensures |Bag(f, txs)| == |txs|
  {
    if txs != [] {
      SingletonsSize(f, txs[1..]);
    }
  }

  /** A height is delivered whole exactly when the pages its block's count asks for reach its last transaction: a count
      that is too low loses transactions silently. */
  lemma HeightDeliveredIff(c: Config, chain: u64 -> Block, blocks: map<u64, Block>, h: u64)
    requires h in blocks && blocks[h] == chain(h) && chain(h).height == h
    requires forall tx :: tx in c.txs(h) ==> tx.height == h
    ensures HeightOutput(c, blocks, h) == HeightDelivery(c, chain, h)
            <==> |c.txs(h)| <= PAGE * PageCount(chain(h).numTxs)
  {
    var txs, n := c.txs(h), PageCount(chain(h).numTxs);
    PagesAdd(c, blocks, h, n);
    PagesReach(txs, chain(h).numTxs);
    FirstPagesArePrefix(txs, n);
    SameBag(Converted(blocks), WithBlock(chain(h)), txs);
    SingletonsSize(Converted(blocks), FirstPages(txs, n));
    SingletonsSize(WithBlock(chain(h)), txs);
  }

  /** The sequence lists the heights of the set, each once. */
  ghost predicate ListsEach(xs: seq<u64>, hs: set<u64>) {
    && (forall i, j :: 0 <= i < j < |xs| ==> xs[i] != xs[j])
    && (forall h :: h in hs <==> h in xs)
  }

  /** The map has the chain's blocks at these heights, all asked for. */
  ghost predicate Agrees(c: Config, chain: u64 -> Block, blocks: map<u64, Block>, hs: set<u64>) {
    forall h :: h in hs ==> Wanted(c, h) && h in blocks && blocks[h] == chain(h)
  }

  /** The pipeline's output for a set of heights is what should be delivered for them, one by one. */
  ghost predicate Delivers(c: Config, chain: u64 -> Block, blocks: map<u64, Block>, hs: set<u64>, xs: seq<u64>) {
    hs <= blocks.Keys && HeightsOutput(c, blocks, hs) == Bag(HeightBag(c, chain), xs)
  }

  lemma {:induction false} HeightsDelivered(
    c: Config, chain: u64 -> Block, blocks: map<u64, Block>, hs: set<u64>, xs: seq<u64>)
    requires Faithful(c, chain) && Agrees(c, chain, blocks, hs) && ListsEach(xs, hs)
    ensures Delivers(c, chain, blocks, hs, xs)
    decreases xs
  {
    if xs == [] {
      assert hs == {};
    } else {
      LessFirst(c, chain, blocks, hs, xs);
      HeightsDelivered(c, chain, blocks, hs - {xs[0]}, xs[1..]);
      OneMoreHeight(c, chain, blocks, hs, xs);
    }
  }

  lemma LessFirst(c: Config, chain: u64 -> Block, blocks: map<u64, Block>, hs: set<u64>, xs: seq<u64>)
    requires Agrees(c, chain, blocks, hs) && ListsEach(xs, hs) && xs != []
    ensures Agrees(c, chain, blocks, hs - {xs[0]}) && ListsEach(xs[1..], hs - {xs[0]})
  {
    assert xs == [xs[0]] + xs[1..];
  }

  lemma OneMoreHeight(c: Config, chain: u64 -> Block, blocks: map<u64, Block>, hs: set<u64>, xs: seq<u64>)
    requires Faithful(c, chain) && Agrees(c, chain, blocks, hs) && ListsEach(xs, hs) && xs != []
    requires Delivers(c, chain, blocks, hs - {xs[0]}, xs[1..])
    ensures Delivers(c, chain, blocks, hs, xs)
  {
    var h := xs[0];
    assert h in xs;
    TakeHeight(c, blocks, hs, h);
    HeightDelivered(c, chain, blocks, h);
  }

  lemma ChunkDelivered(c: Config, chain: u64 -> Block, r: Range)
    requires Faithful(c, chain) && Within(c, r)
    ensures ChunkOutput(c, MapOf(chain, r)) == RangeDelivery(c, chain, r.lo, r.hi)
  {
    var blocks := MapOf(chain, r);
    HeightsListed(r, blocks.Keys);
    HeightsDelivered(c, chain, blocks, blocks.Keys, Heights(r.lo, r.hi));
  }

  lemma HeightsListed(r: Range, hs: set<u64>)
    requires forall h :: h in hs <==> r.lo <= h <= r.hi
    ensures ListsEach(Heights(r.lo, r.hi), hs)
  {
    forall h | h in hs
      ensures h in Heights(r.lo, r.hi)
    {
      assert Heights(r.lo, r.hi)[h - r.lo] == h;
    }
  }

  // ----- the chunks deliver the range -----

  lemma DeliveriesAdd(c: Config, chain: u64 -> Block, lo: u64, mid: u64, hi: int)
    requires lo <= mid + 1 && mid <= hi < TWO_64 && mid + 1 < TWO_64
    ensures RangeDelivery(c, chain, lo, mid) + RangeDelivery(c, chain, mid + 1, hi) == RangeDelivery(c, chain, lo, hi)
  {
    assert Heights(lo, hi) == Heights(lo, mid) + Heights(mid + 1, hi);
    BagConcat(HeightBag(c, chain), Heights(lo, mid), Heights(mid + 1, hi));
  }

  lemma AddNothing(a: multiset<Item>, b: multiset<Item>, d: multiset<Item>)
    ensures a + (b + d) == (a + b) + d && a + multiset{} == a
  {
  }

  /** The maps are those of the first n chunks. */
  ghost predicate ChunkMaps(c: Config, chain: u64 -> Block, maps: seq<map<u64, Block>>, n: nat) {
    |maps| == n && forall i :: 0 <= i < n ==> maps[i] == MapOf(chain, PieceAt(c.range, c.bigPage, i))
  }

  /** The first chunks together deliver the heights up to the end of the last of them. */
  lemma {:induction false} ChunksDelivered(c: Config, chain: u64 -> Block, maps: seq<map<u64, Block>>)
    requires Faithful(c, chain) && c.range.lo <= c.range.hi && Reaches(c.range, c.bigPage)
    requires 0 < |maps| <= LastTurn(c.range, c.bigPage) + 1 && ChunkMaps(c, chain, maps, |maps|)
    ensures ChunksOutput(c, maps)
         == RangeDelivery(c, chain, c.range.lo, PieceAt(c.range, c.bigPage, |maps| - 1).hi)
  {
    var n := |maps| - 1;
    var front, last := maps[..n], PieceAt(c.range, c.bigPage, n);
    PieceInPlace(c.range, c.bigPage, n);
    ChunkDelivered(c, chain, last);
    LastChunk(c, maps);
    if n == 0 {
      FirstPiece(c.range, c.bigPage);
      AddNothing(RangeDelivery(c, chain, last.lo, last.hi), multiset{}, multiset{});
    } else {
      ChunksDelivered(c, chain, front);
      NextChunk(c, chain, n);
    }
  }

  lemma LastChunk(c: Config, maps: seq<map<u64, Block>>)
    requires maps != []
    ensures ChunksOutput(c, maps) == ChunksOutput(c, maps[..|maps| - 1]) + ChunkOutput(c, maps[|maps| - 1])
    ensures |maps| == 1 ==> ChunksOutput(c, maps[..|maps| - 1]) == multiset{}
  {
  }

  lemma NextChunk(c: Config, chain: u64 -> Block, n: nat)
    requires c.range.lo <= c.range.hi && Reaches(c.range, c.bigPage) && 0 < n <= LastTurn(c.range, c.bigPage)
    ensures var before, last := PieceAt(c.range, c.bigPage, n - 1), PieceAt(c.range, c.bigPage, n);
            (RangeDelivery(c, chain, c.range.lo, before.hi) + RangeDelivery(c, chain, last.lo, last.hi)
             == RangeDelivery(c, chain, c.range.lo, last.hi))
  {
    PieceInPlace(c.range, c.bigPage, n - 1);
    PieceInPlace(c.range, c.bigPage, n);
    AdjacentDeliveries(c, chain, c.range.lo, PieceAt(c.range, c.bigPage, n - 1), PieceAt(c.range, c.bigPage, n));
  }

  lemma AdjacentDeliveries(c: Config, chain: u64 -> Block, lo: u64, before: Range, last: Range)
    requires lo <= before.lo <= before.hi < last.lo <= last.hi && before.hi + 1 == last.lo
    ensures RangeDelivery(c, chain, lo, before.hi) + RangeDelivery(c, chain, last.lo, last.hi)
         == RangeDelivery(c, chain, lo, last.hi)
  {
    DeliveriesAdd(c, chain, lo, before.hi, last.hi);
  }

  // ----- runs -----

  /** The task's range and page size, and a node as the client takes it to be. */
  ghost predicate GoodTask(c: Config, chain: u64 -> Block) {
    && 1 <= c.range.lo <= c.range.hi && BothReach(c.range, c.bigPage)
    && Faithful(c, chain)
  }

  lemma GoodTaskStops(c: Config, chain: u64 -> Block)
    requires GoodTask(c, chain)
    ensures AllStop(c.range, c.bigPage) && Total(c.range, c.bigPage) == LastTurn(c.range, c.bigPage) + 1
    ensures forall i: nat :: i < Total(c.range, c.bigPage) ==> GoodPiece(c, PieceAt(c.range, c.bigPage, i))
  {
    TwoLevelCover(c.range, c.bigPage);
    ReachesTiles(c.range, c.bigPage);
    forall i: nat | i < Total(c.range, c.bigPage)
      ensures GoodPiece(c, PieceAt(c.range, c.bigPage, i))
    {
      EarlierChunksReach(c.range, c.bigPage, i);
      PieceInPlace(c.range, c.bigPage, i);
    }
  }

  ghost predicate DeliveryInv(c: Config, chain: u64 -> Block, s: State)
    requires GoodTask(c, chain)
  {
    GoodTaskStops(c, chain);
    Control.ControlInv(s) && ChunkInv(c, s) && EndInv(c, s) && MergeInv(c, chain, s) && FrozenInv(c, chain, s)
  }

  /** A task that got past its last chunk has done all of them; a failed one has not. */
  ghost predicate EndInv(c: Config, s: State)
    requires AllStop(c.range, c.bigPage)
  {
    && (s.main.CloseOut? || s.main.WaitFin? || s.main == Done(true) ==> s.chunk == Total(c.range, c.bigPage))
    && (s.main == Done(false) ==> s.chunk < Total(c.range, c.bigPage))
  }

  lemma EndKept(c: Config, s: State, a: Action)
    requires AllStop(c.range, c.bigPage) && ChunkInv(c, s) && EndInv(c, s) && Enabled(s, a)
    ensures EndInv(c, Step(c, s, a))
  {
    if !a.MainStep? {
      Control.KeepsMain(c, s, a);
    } else if s.main.Return? {
      ExitTest(c.range, c.bigPage, s.chunk);
    }
  }

  lemma DeliveryKept(c: Config, chain: u64 -> Block, s: State, a: Action)
    requires GoodTask(c, chain) && DeliveryInv(c, chain, s) && Enabled(s, a)
    ensures DeliveryInv(c, chain, Step(c, s, a))
  {
    GoodTaskStops(c, chain);
    Control.ControlKept(c, s, a);
    ChunkKept(c, s, a);
    EndKept(c, s, a);
    MergeKept(c, chain, s, a);
    FrozenKept(c, chain, s, a);
  }

  lemma {:induction false} RunDelivery(c: Config, chain: u64 -> Block, s: State, run: seq<Action>)
    requires GoodTask(c, chain) && DeliveryInv(c, chain, s) && Legal(c, s, run)
    ensures DeliveryInv(c, chain, After(c, s, run))
    decreases run
  {
    if run != [] {
      DeliveryKept(c, chain, s, run[0]);
      RunDelivery(c, chain, Step(c, s, run[0]), run[1..]);
    }
  }

  lemma ReachableDelivery(c: Config, chain: u64 -> Block, s: State)
    requires GoodTask(c, chain) && Reachable(c, s)
    ensures DeliveryInv(c, chain, s)
  {
    GoodTaskStops(c, chain);
    Control.InitialControl(c);
    var run :| Legal(c, Initial(c), run) && After(c, Initial(c), run) == s;
    RunDelivery(c, chain, Initial(c), run);
  }

  // ----- the end-to-end theorems -----

  /** Exactly once, end to end.  When an uncancelled task ends well, the stream holds numbered data and END; the
      data, together with the transactions of pages whose fetch failed, are as a multiset one Block for every
      requested height and one Transaction for every transaction of those heights, each with the hash, time and
      chain of the block at its own height. */
  lemma ExactlyOnce(c: Config, chain: u64 -> Block, s: State)
    requires GoodTask(c, chain) && Reachable(c, s) && s.main == Done(true) && !s.cancelled
    ensures s.stream == Stream.Numbered(s.hist.pushed) + [End(Wrap(|s.hist.pushed|))]
    ensures multiset(s.hist.pushed) + s.hist.missing == RangeDelivery(c, chain, c.range.lo, c.range.hi)
  {
    Stream.GoodEnd(c, s);
    EverythingEnqueued(c, chain, s);
  }

  /** The same for what is enqueued, cancelled or not, once main has closed `out`. */
  lemma EverythingEnqueued(c: Config, chain: u64 -> Block, s: State)
    requires GoodTask(c, chain) && Reachable(c, s) && (s.main.WaitFin? || s.main == Done(true))
    ensures multiset(s.hist.pushed) + s.hist.missing == RangeDelivery(c, chain, c.range.lo, c.range.hi)
  {
    AllOrNothing(c, s);
    FrozenChunks(c, chain, s);
    AllChunksDelivered(c, chain, s.hist.frozen);
  }

  lemma FrozenChunks(c: Config, chain: u64 -> Block, s: State)
    requires GoodTask(c, chain) && Reachable(c, s) && (s.main.WaitFin? || s.main.Done?)
    ensures s.main.Done? && !s.main.ok ==> s.chunk <= LastTurn(c.range, c.bigPage)
    ensures s.main.WaitFin? || s.main == Done(true) ==> s.chunk == LastTurn(c.range, c.bigPage) + 1
    ensures ChunkMaps(c, chain, s.hist.frozen, s.chunk)
  {
    ReachableDelivery(c, chain, s);
    GoodTaskStops(c, chain);
  }

  lemma AllChunksDelivered(c: Config, chain: u64 -> Block, maps: seq<map<u64, Block>>)
    requires GoodTask(c, chain) && ChunkMaps(c, chain, maps, LastTurn(c.range, c.bigPage) + 1)
    ensures ChunksOutput(c, maps) == RangeDelivery(c, chain, c.range.lo, c.range.hi)
  {
    LastChunkRegular(c.range, c.bigPage);
    ChunksDelivered(c, chain, maps);
  }

  /** A failed block fetch in chunk j leaves on `out` exactly the heights before that chunk, less failed pages. */
  lemma FailedChunkLeavesPrefix(c: Config, chain: u64 -> Block, s: State)
    requires GoodTask(c, chain) && Reachable(c, s) && s.main == Done(false)
    ensures |s.hist.frozen| == s.chunk
    ensures multiset(s.hist.pushed) + s.hist.missing
         == if s.chunk == 0 then multiset{}
            else RangeDelivery(c, chain, c.range.lo, PieceAt(c.range, c.bigPage, s.chunk - 1).hi)
  {
    AllOrNothing(c, s);
    FrozenChunks(c, chain, s);
    if s.chunk > 0 {
      ChunksDelivered(c, chain, s.hist.frozen);
    }
  }

  // ----- runs in which every request is answered -----

  /** The action is not a failing request. */
  predicate Answers(a: Action) {
    a.FetcherStep? || a.WorkerStep? ==> a.ok
  }

  /** No request has failed so far. */
  ghost predicate FaultFree(s: State) {
    && s.hist.missing == multiset{}
    && forall k :: 0 <= k < |s.fetchers| ==> s.fetchers[k] != Replying(false) && s.fetchers[k] != Replied(false)
  }

  lemma FaultFreeKept(c: Config, s: State, a: Action)
    requires FaultFree(s) && Enabled(s, a) && Answers(a)
    ensures FaultFree(Step(c, s, a))
  {
    match a
    case MainStep(pick) => MainFaultFree(c, s, pick);
    case FetcherStep(k, _) => FetcherFaultFree(c, s, k);
    case WorkerStep(k, _) => WorkerFaultFree(c, s, k);
    case _ =>
  }

  lemma MainFaultFree(c: Config, s: State, pick: u64)
    requires FaultFree(s) && MainEnabled(s, pick)
    ensures FaultFree(MainEffect(c, s, pick))
  {
    if Gathers(s.main) {
      GatherLeavesHistory(c, s);
    } else if !Feeds(s.main) {
      WindUpHistory(c, s);
    }
  }

  lemma FetcherFaultFree(c: Config, s: State, k: nat)
    requires FaultFree(s) && FetcherEnabled(s, k)
    ensures FaultFree(FetcherEffect(c, s, k, true))
  {
  }

  lemma WorkerFaultFree(c: Config, s: State, k: nat)
    requires FaultFree(s) && WorkerEnabled(s, k)
    ensures FaultFree(WorkerEffect(c, s, k, true))
  {
  }

  lemma {:induction false} RunFaultFree(c: Config, s: State, run: seq<Action>)
    requires FaultFree(s) && Legal(c, s, run) && forall i :: 0 <= i < |run| ==> Answers(run[i])
    ensures FaultFree(After(c, s, run))
    decreases run
  {
    if run != [] {
      FaultFreeKept(c, s, run[0]);
      RunFaultFree(c, Step(c, s, run[0]), run[1..]);
    }
  }

  /** Total correctness: whatever order the scheduler chooses, when the node answers every request and nobody cancels,
      the task ends, all its goroutines end, and the stream holds, numbered in the order enqueued and followed by
      END, exactly the blocks of the range and their transactions. */
  lemma TaskDelivers(c: Config, chain: u64 -> Block, schedule: (seq<Action>, State) -> Action)
    returns (run: seq<Action>, items: seq<Item>)
    requires GoodTask(c, chain) && AlwaysMoves(c, schedule) && forall past, s :: Answers(schedule(past, s))
    ensures Follows(c, schedule, run, 0) && Control.AllEnded(After(c, Initial(c), run))
    ensures After(c, Initial(c), run).stream == Stream.Numbered(items) + [End(Wrap(|items|))]
    ensures multiset(items) == RangeDelivery(c, chain, c.range.lo, c.range.hi)
  {
    GoodTaskStops(c, chain);
    run := TaskFinishes(c, schedule);
    var s := After(c, Initial(c), run);
    items := s.hist.pushed;
    RunFaultFree(c, Initial(c), run);
    assert Reachable(c, s);
    Control.ReachableControl(c, s);
    ExactlyOnce(c, chain, s);
  }

  // ----- such nodes and schedules exist -----

  /** A node that serves a chain up to its tip. */
  function AnswerFrom(chain: u64 -> Block, tip: u64): Range -> seq<Block> {
    (r: Range) =>
      var last := if r.hi < tip then r.hi else tip;
      if r.lo <= last && r.hi - r.lo < REQUEST_SIZE then BlocksOf(chain, Range(r.lo, last)) else []
  }

  function BlocksOf(chain: u64 -> Block, r: Range): seq<Block>
    requires r.lo <= r.hi
  {
    seq(r.hi - r.lo + 1, i requires 0 <= i <= r.hi - r.lo => chain(r.lo + i))
  }

  lemma AnswerGood(c: Config, chain: u64 -> Block, tip: u64, r: Range)
    requires c.answer == AnswerFrom(chain, tip) && r.lo <= r.hi <= tip && r.hi - r.lo < REQUEST_SIZE
    requires forall h: u64 :: r.lo <= h <= r.hi ==> chain(h).height == h
    ensures GoodAnswer(c, chain, r)
  {
    var bs := BlocksOf(chain, r);
    assert c.answer(r) == bs;
    forall h: u64 | r.lo <= h <= r.hi
      ensures chain(h) in bs
    {
      assert bs[h - r.lo] == chain(h);
    }
  }

  /** A block that counts its transactions right is good, up to the counts that floating point can page. */
  lemma RightCountGood(c: Config, chain: u64 -> Block, h: u64)
    requires chain(h).height == h && |c.txs(h)| == chain(h).numTxs <= SAFE
    requires forall tx :: tx in c.txs(h) ==> tx.height == h
    ensures GoodHeight(c, chain, h)
  {
    RightCountReaches(chain(h).numTxs);
  }

  lemma ServedFaithfully(c: Config, chain: u64 -> Block, tip: u64)
    requires c.answer == AnswerFrom(chain, tip)
    requires forall h: u64 :: 1 <= h <= tip ==> GoodHeight(c, chain, h)
    requires 1 <= c.range.lo && c.range.hi <= tip
    ensures Faithful(c, chain)
  {
    forall h: u64 | Wanted(c, h)
      ensures GoodHeight(c, chain, h)
    {
    }
    forall r | Within(c, r) && r.hi - r.lo < REQUEST_SIZE
      ensures GoodAnswer(c, chain, r)
    {
      forall h: u64 | r.lo <= h <= r.hi
        ensures chain(h).height == h
      {
        assert GoodHeight(c, chain, h);
      }
      AnswerGood(c, chain, tip, r);
    }
  }

  /** Every chain with a tip, whose blocks ask for pages enough, has a node that serves it faithfully; and every
      range below the tip and far enough from the end of uint64 makes a good task for it. */
  lemma EveryChainServed(c: Config, chain: u64 -> Block, tip: u64)
    requires c.answer == AnswerFrom(chain, tip)
    requires forall h: u64 :: 1 <= h <= tip ==> GoodHeight(c, chain, h)
    requires 1 <= c.bigPage && 1 <= c.range.lo <= c.range.hi <= tip
    requires c.range.hi + c.bigPage - 1 < TWO_64 && c.range.hi + 19 < TWO_64
    ensures GoodTask(c, chain)
  {
    FarFromTheEnd(c.range, c.bigPage);
    ServedFaithfully(c, chain, tip);
  }

  ghost function SomeStep(s: State): Action {
    if exists a :: Progress.OwnStep(s, a) && Answers(a) then
      var a :| Progress.OwnStep(s, a) && Answers(a); a
    else Cancel
  }

  /** The same step, with its request answered. */
  function WithAnswer(a: Action): Action {
    match a
    case FetcherStep(k, _) => FetcherStep(k, true)
    case WorkerStep(k, _) => WorkerStep(k, true)
    case _ => a
  }

  /** Every task has a schedule that always moves and answers every request. */
  lemma SomeSchedule(c: Config) returns (schedule: (seq<Action>, State) -> Action)
    ensures AlwaysMoves(c, schedule) && forall past, s :: Answers(schedule(past, s))
  {
    schedule := (past: seq<Action>, s: State) => SomeStep(s);
    forall past: seq<Action>, s | Reachable(c, s) && exists a :: Progress.OwnStep(s, a)
      ensures Progress.OwnStep(s, schedule(past, s))
    {
      var a :| Progress.OwnStep(s, a);
      assert Progress.OwnStep(s, WithAnswer(a)) && Answers(WithAnswer(a));
    }
  }
}
