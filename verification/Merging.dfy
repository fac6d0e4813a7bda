/** What the block map of a chunk holds when its pipeline starts, for a node that answers requests faithfully. */
module Merging {
  import opened Blocks
  import opened Control
  import Flow
  import opened Machine
  import Pages
  import opened Ranges

  /** The task asks for this height. */
  predicate Wanted(c: Config, h: u64) {
    c.range.lo <= h <= c.range.hi
  }

  /** A range of heights the task asks for. */
  predicate Within(c: Config, r: Range) {
    c.range.lo <= r.lo <= r.hi <= c.range.hi
  }

  /** The chain's block at a height the task asks for; its count of transactions, right or not, asks for pages enough,
      and the transactions of the height say so. */
  ghost predicate GoodHeight(c: Config, chain: u64 -> Block, h: u64) {
    && chain(h).height == h
    && |c.txs(h)| <= Pages.PAGE * Pages.PageCount(chain(h).numTxs)
    && forall tx :: tx in c.txs(h) ==> tx.height == h
  }

  /** The answer to a request is exactly the chain's blocks of its heights, in any order. */
  ghost predicate GoodAnswer(c: Config, chain: u64 -> Block, r: Range) {
    && (forall b :: b in c.answer(r) ==> r.lo <= b.height <= r.hi && b == chain(b.height))
    && (forall h: u64 :: r.lo <= h <= r.hi ==> chain(h) in c.answer(r))
  }

  /** The node has a block for every height asked for, and answers a request of at most 20 of those heights with
      exactly their blocks.  Nothing is asked of it elsewhere: its chain may end above the range. */
  ghost predicate Faithful(c: Config, chain: u64 -> Block) {
    && (forall h: u64 :: Wanted(c, h) ==> GoodHeight(c, chain, h))
    && (forall r :: Within(c, r) && r.hi - r.lo < REQUEST_SIZE ==> GoodAnswer(c, chain, r))
  }

  /** The map of a range of heights. */
  ghost function MapOf(chain: u64 -> Block, r: Range): map<u64, Block> {
    map h: u64 | r.lo <= h <= r.hi :: chain(h)
  }

  /** The requests of the chunk in hand. */
  ghost function RequestOf(s: State, k: nat): Range {
    PieceAt(s.piece, REQUEST_SIZE, k)
  }

  /** Every height of the request is in the map, or still to be merged by the fetcher. */
  ghost predicate Covered(chain: u64 -> Block, r: Range, blocks: map<u64, Block>, rest: seq<Block>) {
    forall h: u64 :: r.lo <= h <= r.hi ==> h in blocks || chain(h) in rest
  }

  /** How far a fetcher has brought its request into the map. */
  ghost predicate FetcherGood(c: Config, chain: u64 -> Block, r: Range, f: Fetcher, blocks: map<u64, Block>) {
    match f
    case Asking(request) => request == r
    case Answered(bs) => bs == c.answer(r)
    case Merging(rest) =>
      && (forall b :: b in rest ==> b in c.answer(r))
      && Covered(chain, r, blocks, rest)
    case Replying(ok) => ok ==> Covered(chain, r, blocks, [])
    case Replied(ok) => ok ==> Covered(chain, r, blocks, [])
  }

  /** The chunk in hand and its block map. */
  ghost predicate GoodPiece(c: Config, p: Range) {
    Within(c, p) && Reaches(p, REQUEST_SIZE)
  }

  /** The map holds only blocks of the chain, at heights of the chunk. */
  ghost predicate MapGood(chain: u64 -> Block, p: Range, blocks: map<u64, Block>) {
    forall h :: h in blocks ==> p.lo <= h <= p.hi && blocks[h] == chain(h)
  }

  predicate InChunk(m: Main) {
    FetchPhase(m) || m.Starting? || PipePhase(m)
  }

  ghost predicate MergeInv(c: Config, chain: u64 -> Block, s: State) {
    && (InChunk(s.main) ==> GoodPiece(c, s.piece) && MapGood(chain, s.piece, s.summary.blocks))
    && (InChunk(s.main) ==>
          forall k :: 0 <= k < |s.fetchers| ==>
            FetcherGood(c, chain, RequestOf(s, k), s.fetchers[k], s.summary.blocks))
    && (s.main.FanOut? ==> |s.fetchers| <= LastTurn(s.piece, REQUEST_SIZE))
    && (InChunk(s.main) && !s.main.FanOut? ==> |s.fetchers| == LastTurn(s.piece, REQUEST_SIZE) + 1)
  }

  // ----- fetchers -----

  /** A request of a good chunk lies in the chunk and spans at most 20 heights. */
  lemma RequestInPiece(c: Config, p: Range, k: nat)
    requires GoodPiece(c, p) && k <= LastTurn(p, REQUEST_SIZE)
    ensures var r := PieceAt(p, REQUEST_SIZE, k); p.lo <= r.lo <= r.hi <= p.hi && r.hi - r.lo < REQUEST_SIZE
    ensures PieceAt(p, REQUEST_SIZE, k).hi == p.hi <==> k == LastTurn(p, REQUEST_SIZE)
  {
    RegularTurn(p, REQUEST_SIZE, k);
    PieceSpan(p, REQUEST_SIZE, k);
  }

  lemma MergeOneGood(c: Config, chain: u64 -> Block, r: Range, rest: seq<Block>, s: Summary, p: Range)
    requires Faithful(c, chain) && rest != [] && FetcherGood(c, chain, r, Merging(rest), s.blocks)
    requires Within(c, r) && r.hi - r.lo < REQUEST_SIZE
    requires MapGood(chain, p, s.blocks) && p.lo <= r.lo && r.hi <= p.hi
    ensures var t := Merge(s, rest[0]);
            MapGood(chain, p, t.blocks) && FetcherGood(c, chain, r, Merging(rest[1..]), t.blocks)
  {
    var b, t := rest[0], Merge(s, rest[0]);
    assert b in rest;
    assert rest == [b] + rest[1..];
    forall h: u64 | r.lo <= h <= r.hi
      ensures h in t.blocks || chain(h) in rest[1..]
    {
      assert Wanted(c, h);
      assert h in s.blocks || chain(h) in rest;
    }
  }

  /** A map that grows keeps every fetcher's standing. */
  lemma GrowKeeps(c: Config, chain: u64 -> Block, r: Range, f: Fetcher, small: map<u64, Block>, big: map<u64, Block>)
    requires FetcherGood(c, chain, r, f, small) && small.Keys <= big.Keys
    ensures FetcherGood(c, chain, r, f, big)
  {
  }

  lemma AnswerCovers(c: Config, chain: u64 -> Block, r: Range, blocks: map<u64, Block>)
    requires Faithful(c, chain) && Within(c, r) && r.hi - r.lo < REQUEST_SIZE
    ensures FetcherGood(c, chain, r, Merging(c.answer(r)), blocks)
  {
  }

  lemma FetcherStepGood(c: Config, chain: u64 -> Block, s: State, k: nat, ok: bool, t: State)
    requires Faithful(c, chain) && MergeInv(c, chain, s) && FetchPhase(s.main) && FetchInv(s)
    requires FetcherEnabled(s, k) && t == FetcherEffect(c, s, k, ok)
    ensures MapGood(chain, s.piece, t.summary.blocks) && s.summary.blocks.Keys <= t.summary.blocks.Keys
    ensures FetcherGood(c, chain, RequestOf(s, k), t.fetchers[k], t.summary.blocks)
  {
    var r := RequestOf(s, k);
    RequestInPiece(c, s.piece, k);
    match s.fetchers[k]
    case Answered(bs) => AnswerCovers(c, chain, r, s.summary.blocks);
    case Merging(rest) =>
      if rest != [] {
        MergeOneGood(c, chain, r, rest, s.summary, s.piece);
      }
    case _ =>
  }

  lemma FetcherKeepsMerge(c: Config, chain: u64 -> Block, s: State, k: nat, ok: bool)
    requires Faithful(c, chain) && MergeInv(c, chain, s) && FetchInv(s) && FetcherEnabled(s, k)
    ensures MergeInv(c, chain, FetcherEffect(c, s, k, ok))
  {
    assert FetchPhase(s.main);
    var t := FetcherEffect(c, s, k, ok);
    FetcherFrame(c, s, k, ok);
    FetcherStepGood(c, chain, s, k, ok, t);
    forall i | 0 <= i < |t.fetchers|
      ensures FetcherGood(c, chain, RequestOf(t, i), t.fetchers[i], t.summary.blocks)
    {
      if i != k {
        GrowKeeps(c, chain, RequestOf(s, i), s.fetchers[i], s.summary.blocks, t.summary.blocks);
      }
    }
  }

  // ----- main -----

  lemma PageKeepsMerge(c: Config, chain: u64 -> Block, s: State)
    requires s.main.Page? && GoodPiece(c, PieceAt(c.range, c.bigPage, s.chunk))
    ensures MergeInv(c, chain, GatherEffect(c, s))
  {
  }

  lemma FanOutKeepsMerge(c: Config, chain: u64 -> Block, s: State)
    requires MergeInv(c, chain, s) && s.main.FanOut?
    ensures MergeInv(c, chain, GatherEffect(c, s))
  {
    RequestInPiece(c, s.piece, |s.fetchers|);
  }

  lemma GatherKeepsMerge(c: Config, chain: u64 -> Block, s: State)
    requires MergeInv(c, chain, s) && Gathers(s.main)
    requires s.main.Page? ==> GoodPiece(c, PieceAt(c.range, c.bigPage, s.chunk))
    ensures MergeInv(c, chain, GatherEffect(c, s))
  {
    if s.main.Page? {
      PageKeepsMerge(c, chain, s);
    } else if s.main.FanOut? {
      FanOutKeepsMerge(c, chain, s);
    }
  }

  lemma SameMerge(c: Config, chain: u64 -> Block, s: State, t: State)
    requires MergeInv(c, chain, s)
    requires t.piece == s.piece && t.fetchers == s.fetchers && t.summary == s.summary
    requires InChunk(t.main) ==> InChunk(s.main) && t.main.FanOut? == s.main.FanOut?
    ensures MergeInv(c, chain, t)
  {
  }

  lemma MainKeepsMerge(c: Config, chain: u64 -> Block, s: State, pick: u64)
    requires MergeInv(c, chain, s) && MainEnabled(s, pick)
    requires s.main.Page? ==> GoodPiece(c, PieceAt(c.range, c.bigPage, s.chunk))
    ensures MergeInv(c, chain, MainEffect(c, s, pick))
  {
    var t := MainEffect(c, s, pick);
    if Gathers(s.main) {
      GatherKeepsMerge(c, chain, s);
    } else if Feeds(s.main) {
      FeedFrame(c, s, pick);
      SameMerge(c, chain, s, t);
    } else {
      WindUpFrame(c, s);
      SameMerge(c, chain, s, t);
    }
  }

  lemma MergeKept(c: Config, chain: u64 -> Block, s: State, a: Action)
    requires Faithful(c, chain) && MergeInv(c, chain, s) && FetchInv(s) && Enabled(s, a)
    requires s.main.Page? ==> GoodPiece(c, PieceAt(c.range, c.bigPage, s.chunk))
    ensures MergeInv(c, chain, Step(c, s, a))
  {
    match a
    case Cancel => SameMerge(c, chain, s, s.(cancelled := true));
    case MainStep(pick) => MainKeepsMerge(c, chain, s, pick);
    case FetcherStep(k, ok) => FetcherKeepsMerge(c, chain, s, k, ok);
    case WorkerStep(k, ok) =>
      WorkerFrame(c, s, k, ok);
      SameMerge(c, chain, s, WorkerEffect(c, s, k, ok));
    case ConverterStep =>
      ConverterFrame(s);
      SameMerge(c, chain, s, ConverterEffect(s));
    case SenderStep(stop) =>
      SenderFrame(s, stop);
      SameMerge(c, chain, s, SenderEffect(s, stop));
  }

  // ----- the frozen map -----

  /** A height of the chunk lies in one of its requests. */
  lemma HeightInSomeRequest(c: Config, p: Range, h: u64) returns (k: nat)
    requires GoodPiece(c, p) && p.lo <= h <= p.hi
    ensures k <= LastTurn(p, REQUEST_SIZE)
    ensures var r := PieceAt(p, REQUEST_SIZE, k); r.lo <= h <= r.hi
  {
    k := (h - p.lo) / REQUEST_SIZE;
    RegularTurn(p, REQUEST_SIZE, k);
  }

  /** When all replies were good, the map is exactly the map of the chunk. */
  lemma FrozenMap(c: Config, chain: u64 -> Block, s: State)
    requires MergeInv(c, chain, s) && InChunk(s.main) && !s.main.FanOut?
    requires AllReplied(s.fetchers) && !SomeFailed(s.fetchers)
    ensures s.summary.blocks == MapOf(chain, s.piece)
  {
    forall h: u64 | s.piece.lo <= h <= s.piece.hi
      ensures h in s.summary.blocks
    {
      var k := HeightInSomeRequest(c, s.piece, h);
      assert FetcherGood(c, chain, RequestOf(s, k), s.fetchers[k], s.summary.blocks);
      assert s.fetchers[k] != Replied(false);
    }
  }

  /** Each started pipeline ran on the map of its chunk. */
  ghost predicate FrozenInv(c: Config, chain: u64 -> Block, s: State) {
    && |s.hist.frozen| == s.chunk + (if PipePhase(s.main) then 1 else 0)
    && forall i :: 0 <= i < |s.hist.frozen| ==> s.hist.frozen[i] == MapOf(chain, PieceAt(c.range, c.bigPage, i))
  }

  lemma StartKeepsFrozen(c: Config, chain: u64 -> Block, s: State, pick: u64)
    requires FrozenInv(c, chain, s) && MergeInv(c, chain, s) && FetchInv(s) && VerdictInv(s)
    requires s.main.Starting? && s.piece == PieceAt(c.range, c.bigPage, s.chunk)
    ensures FrozenInv(c, chain, FeedEffect(c, s, pick))
  {
    FrozenMap(c, chain, s);
  }

  lemma OthersKeepFrozen(c: Config, s: State, a: Action)
    requires Enabled(s, a) && !(a.MainStep? && s.main.Starting?)
    ensures var t := Step(c, s, a);
            && t.hist.frozen == s.hist.frozen
            && t.chunk == s.chunk + (if a.MainStep? && s.main.Return? then 1 else 0)
            && (PipePhase(t.main) <==> PipePhase(s.main) && !(a.MainStep? && s.main.Return?))
  {
    if !a.MainStep? {
      KeepsMain(c, s, a);
      Flow.OthersKeepHistory(c, s, a);
    } else if Gathers(s.main) {
      Flow.GatherLeavesHistory(c, s);
    } else if Feeds(s.main) {
      FeedKeepsFrozen(c, s, a.pick);
    } else {
      Flow.WindUpHistory(c, s);
    }
  }

  lemma FeedKeepsFrozen(c: Config, s: State, pick: u64)
    requires Feeds(s.main) && !s.main.Starting? && MainEnabled(s, pick)
    ensures var t := FeedEffect(c, s, pick);
            t.hist.frozen == s.hist.frozen && t.chunk == s.chunk && PipePhase(t.main)
  {
  }

  lemma FrozenKept(c: Config, chain: u64 -> Block, s: State, a: Action)
    requires FrozenInv(c, chain, s) && MergeInv(c, chain, s) && FetchInv(s) && VerdictInv(s) && Enabled(s, a)
    requires s.main.Starting? ==> s.piece == PieceAt(c.range, c.bigPage, s.chunk)
    ensures FrozenInv(c, chain, Step(c, s, a))
  {
    if a.MainStep? && s.main.Starting? {
      StartKeepsFrozen(c, chain, s, a.pick);
    } else {
      OthersKeepFrozen(c, s, a);
    }
  }
}
