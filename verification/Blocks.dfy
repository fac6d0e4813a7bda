/** The shared block map of one chunk and the merge of a node's answer into it. */
module Blocks {
  import Digits
  import opened Options
  import opened Ranges
  import Sums

  datatype Block = Block(hash: string, height: u64, chainID: string, time: int, numTxs: u64)

  /** The value of a `BlocksMap`. */
  datatype Summary = Summary(blocks: map<u64, Block>, numTxs: u64, startHeight: u64, endHeight: u64)

  const EMPTY := Summary(map[], 0, 0, 0)

  /** One turn of the merge loop.  Height 0 stands for "not set yet". */
  function Merge(s: Summary, b: Block): Summary {
    Summary(
      s.blocks[b.height := b],
      Wrap(s.numTxs + b.numTxs),
      if s.startHeight == 0 || s.startHeight > b.height then b.height else s.startHeight,
      if s.endHeight == 0 || s.endHeight < b.height then b.height else s.endHeight)
  }

  function MergeAll(s: Summary, bs: seq<Block>): Summary {
    if bs == [] then s else Merge(MergeAll(s, bs[..|bs| - 1]), bs[|bs| - 1])
  }

  lemma MergeOneMore(s: Summary, bs: seq<Block>, b: Block)
    ensures MergeAll(s, bs + [b]) == Merge(MergeAll(s, bs), b)
  {
    assert (bs + [b])[..|bs|] == bs;
  }

  lemma PrefixMerge(s: Summary, bs: seq<Block>, i: nat)
    requires i < |bs|
    ensures MergeAll(s, bs[..i + 1]) == Merge(MergeAll(s, bs[..i]), bs[i])
  {
    assert bs[..i + 1] == bs[..i] + [bs[i]];
    MergeOneMore(s, bs[..i], bs[i]);
  }

  // ----- decoding an answer into the map -----

  /** One entry of `block_metas`: columbus-3 counts transactions in the header, columbus-4 beside it. */
  datatype Meta = Meta(hash: string, height: string, chainID: string, time: int, headerNumTxs: string, numTxs: string)

  /** A response body: not decodable, or an error message (possibly empty) with block metas. */
  datatype Body = Undecodable | Decoded(errorMessage: string, metas: seq<Meta>)

  function ToBlock(m: Meta, columbus4: bool): Block {
    var count := if columbus4 then m.numTxs else m.headerNumTxs;
    Block(m.hash, Digits.ParseUint(m.height), m.chainID, m.time, Digits.ParseUint(count))
  }

  function ToBlocks(metas: seq<Meta>, columbus4: bool): seq<Block> {
    seq(|metas|, i requires 0 <= i < |metas| => ToBlock(metas[i], columbus4))
  }

  /** The meta carries the block: the height and the version's own counter as printed numbers, and anything in the
      counter of the other version. */
  predicate Carries(m: Meta, b: Block, columbus4: bool) {
    && m.hash == b.hash && m.chainID == b.chainID && m.time == b.time
    && m.height == Digits.Show(b.height)
    && (columbus4 ==> m.numTxs == Digits.Show(b.numTxs))
    && (!columbus4 ==> m.headerNumTxs == Digits.Show(b.numTxs))
  }

  /** The answer of a node for these blocks, in this order. */
  predicate CarriesAll(body: Body, bs: seq<Block>, columbus4: bool) {
    && body.Decoded? && body.errorMessage == ""
    && |body.metas| == |bs| && forall i :: 0 <= i < |bs| ==> Carries(body.metas[i], bs[i], columbus4)
  }

  /** Every block a node can answer with is decoded as it is. */
  lemma AnswerDecodes(body: Body, bs: seq<Block>, columbus4: bool)
    requires CarriesAll(body, bs, columbus4)
    ensures ToBlocks(body.metas, columbus4) == bs
  {
    forall i | 0 <= i < |bs|
      ensures ToBlock(body.metas[i], columbus4) == bs[i]
    {
      Digits.ParseUintShow(bs[i].height);
      Digits.ParseUintShow(bs[i].numTxs);
    }
  }

  /** What any meta is decoded to, with numbers that are not numbers of 64 bits read as such. */
  lemma MetaDecodes(m: Meta, b: Block, columbus4: bool)
    ensures ToBlock(m, columbus4) == b <==>
              && m.hash == b.hash && m.chainID == b.chainID && m.time == b.time
              && Digits.ParsedAs(m.height, b.height)
              && (columbus4 ==> Digits.ParsedAs(m.numTxs, b.numTxs))
              && (!columbus4 ==> Digits.ParsedAs(m.headerNumTxs, b.numTxs))
  {
    Digits.ParseUintExact(m.height);
    Digits.ParseUintExact(m.numTxs);
    Digits.ParseUintExact(m.headerNumTxs);
  }

  class BlocksMap {
    var blocks: map<u64, Block>
    var numTxs: u64
    var startHeight: u64
    var endHeight: u64

    ghost function Contents(): Summary
      reads this
    {
      Summary(blocks, numTxs, startHeight, endHeight)
    }

    constructor ()
      ensures Contents() == EMPTY
    {
      blocks, numTxs, startHeight, endHeight := map[], 0, 0, 0;
    }

    /** `decodeBlocksColumbus3` and `decodeBlocksColumbus4`: a body that is an answer of blocks is those blocks merged
        in order; one that cannot be decoded, or has an error message, fails and leaves the map as it was. */
    method Decode(body: Body, columbus4: bool) returns (ok: bool)
      modifies this
      ensures ok <==> body.Decoded? && body.errorMessage == ""
      ensures Contents() == if ok then MergeAll(old(Contents()), ToBlocks(body.metas, columbus4)) else old(Contents())
      ensures forall bs :: CarriesAll(body, bs, columbus4) ==> ok && Contents() == MergeAll(old(Contents()), bs)
    {
      if body.Undecodable? || body.errorMessage != "" {
        return false;
      }
      ghost var bs := ToBlocks(body.metas, columbus4);
      ghost var start := Contents();
      for i := 0 to |body.metas|
        invariant Contents() == MergeAll(start, bs[..i])
      {
        var block := ToBlock(body.metas[i], columbus4);
        ghost var before := Contents();
        numTxs := Wrap(numTxs + block.numTxs);
        if startHeight == 0 || startHeight > block.height {
          startHeight := block.height;
        }
        if endHeight == 0 || endHeight < block.height {
          endHeight := block.height;
        }
        blocks := blocks[block.height := block];
        assert Contents() == Merge(before, block);
        PrefixMerge(start, bs, i);
      }
      assert bs[..|bs|] == bs;
      forall given | CarriesAll(body, given, columbus4)
        ensures given == bs
      {
        AnswerDecodes(body, given, columbus4);
      }
      return true;
    }
  }

  // ----- what the map holds -----

  /** Blocks of the same height are the same block. */
  predicate Consistent(bs: seq<Block>) {
    forall i, j :: 0 <= i < j < |bs| && bs[i].height == bs[j].height ==> bs[i] == bs[j]
  }

  predicate Distinct(bs: seq<Block>) {
    forall i, j :: 0 <= i < j < |bs| ==> bs[i].height != bs[j].height
  }

  predicate Positive(bs: seq<Block>) {
    forall i :: 0 <= i < |bs| ==> bs[i].height > 0
  }

  predicate AllZero(bs: seq<Block>) {
    forall i :: 0 <= i < |bs| ==> bs[i].height == 0
  }

  ghost function HeightsOf(bs: multiset<Block>): set<u64> {
    set b | b in bs :: b.height
  }

  /** What the map holds, said without any order: exactly the given blocks, each under its height. */
  ghost predicate Holds(s: Summary, bs: multiset<Block>) {
    && (forall b :: b in bs ==> b.height in s.blocks && s.blocks[b.height] == b)
    && s.blocks.Keys == HeightsOf(bs)
  }

  /** The bounds are the smallest and the largest height held, or unset when nothing is held. */
  ghost predicate Bounded(s: Summary) {
    && (s.blocks.Keys == {} ==> s.startHeight == 0 && s.endHeight == 0)
    && (s.blocks.Keys != {} ==> s.startHeight in s.blocks.Keys && s.endHeight in s.blocks.Keys)
    && (forall h :: h in s.blocks ==> s.startHeight <= h <= s.endHeight)
  }

  lemma {:induction false} MergeHolds(bs: seq<Block>)
    requires Consistent(bs)
    ensures Holds(MergeAll(EMPTY, bs), multiset(bs))
  {
    if bs != [] {
      var front, b := bs[..|bs| - 1], bs[|bs| - 1];
      assert bs == front + [b];
      MergeHolds(front);
      forall x | x in front && x.height == b.height
        ensures x == b
      {
        var i :| 0 <= i < |front| && front[i] == x;
        assert bs[i] == x;
      }
      HoldsOneMore(MergeAll(EMPTY, front), b, front, multiset(bs));
    }
  }

  lemma HoldsOneMore(s: Summary, b: Block, front: seq<Block>, more: multiset<Block>)
    requires Holds(s, multiset(front)) && more == multiset(front) + multiset{b}
    requires forall x :: x in front && x.height == b.height ==> x == b
    ensures Holds(Merge(s, b), more)
  {
    HeightsGrow(multiset(front), b);
    var t := Merge(s, b);
    forall x | x in more
      ensures x.height in t.blocks && t.blocks[x.height] == x
    {
      if x != b {
        assert x in multiset(front);
      }
    }
  }

  lemma HeightsGrow(bs: multiset<Block>, b: Block)
    ensures HeightsOf(bs + multiset{b}) == HeightsOf(bs) + {b.height}
  {
    var more := bs + multiset{b};
    forall h | h in HeightsOf(bs) + {b.height}
      ensures h in HeightsOf(more)
    {
      var x :| (x in bs || x == b) && x.height == h;
      assert x in more;
    }
  }

  lemma {:induction false} MergeBounded(bs: seq<Block>)
    requires Positive(bs)
    ensures Bounded(MergeAll(EMPTY, bs)) && 0 !in MergeAll(EMPTY, bs).blocks
  {
    if bs != [] {
      MergeBounded(bs[..|bs| - 1]);
      BoundedOneMore(MergeAll(EMPTY, bs[..|bs| - 1]), bs[|bs| - 1]);
    }
  }

  lemma BoundedOneMore(s: Summary, b: Block)
    requires Bounded(s) && b.height > 0 && 0 !in s.blocks
    ensures Bounded(Merge(s, b))
  {
    assert b.height in Merge(s, b).blocks.Keys;
  }

  /** With height 0 only, the bounds stay unset, which is then right. */
  lemma {:induction false} ZeroBounded(bs: seq<Block>)
    requires AllZero(bs)
    ensures var s := MergeAll(EMPTY, bs);
            Bounded(s) && s.startHeight == 0 && s.endHeight == 0 && s.blocks.Keys == if bs == [] then {} else {0}
  {
    if bs != [] {
      ZeroBounded(bs[..|bs| - 1]);
    }
  }

  // ----- the count -----

  function TxsOf(): Block -> nat {
    (b: Block) => b.numTxs
  }

  function SumTxs(bs: seq<Block>): nat {
    Sums.Sum(TxsOf(), bs)
  }

  lemma SumTxsLast(bs: seq<Block>)
    requires bs != []
    ensures SumTxs(bs) == SumTxs(bs[..|bs| - 1]) + bs[|bs| - 1].numTxs
  {
    assert bs == bs[..|bs| - 1] + [bs[|bs| - 1]];
    Sums.SumAppend(TxsOf(), bs[..|bs| - 1], bs[|bs| - 1]);
  }

  lemma {:induction false} MergeCounts(s: Summary, bs: seq<Block>)
    ensures MergeAll(s, bs).numTxs == Wrap(s.numTxs + SumTxs(bs))
  {
    if bs != [] {
      var front, b := bs[..|bs| - 1], bs[|bs| - 1];
      MergeCounts(s, front);
      SumTxsLast(bs);
      AddWrap(b.numTxs, s.numTxs + SumTxs(front));
    }
  }

  /** The transactions of all blocks in the map. */
  ghost function MapTxs(blocks: map<u64, Block>): nat
    decreases |blocks|
  {
    if blocks == map[] then 0
    else
      var h :| h in blocks;
      assert |(blocks - {h}).Keys| < |blocks.Keys|;
      blocks[h].numTxs + MapTxs(blocks - {h})
  }

  /** Any height may be counted first. */
  lemma {:induction false} MapTxsTake(blocks: map<u64, Block>, h: u64)
    requires h in blocks
    ensures MapTxs(blocks) == blocks[h].numTxs + MapTxs(blocks - {h})
    decreases |blocks|
  {
    var g :| g in blocks && MapTxs(blocks) == blocks[g].numTxs + MapTxs(blocks - {g});
    if g != h {
      assert |(blocks - {g}).Keys| < |blocks.Keys| && |(blocks - {h}).Keys| < |blocks.Keys|;
      MapTxsTake(blocks - {g}, h);
      MapTxsTake(blocks - {h}, g);
      assert blocks - {g} - {h} == blocks - {h} - {g};
    }
  }

  /** The last block of a height. */
  function LastAt(bs: seq<Block>, h: u64): Option<Block> {
    if bs == [] then None
    else if bs[|bs| - 1].height == h then Some(bs[|bs| - 1])
    else LastAt(bs[..|bs| - 1], h)
  }

  function Lookup(blocks: map<u64, Block>, h: u64): Option<Block> {
    if h in blocks then Some(blocks[h]) else None
  }

  /** At each height the last block merged stays. */
  lemma {:induction false} MapHasLast(s: Summary, bs: seq<Block>, h: u64)
    ensures Lookup(MergeAll(s, bs).blocks, h)
         == if LastAt(bs, h).Some? then LastAt(bs, h) else Lookup(s.blocks, h)
  {
    if bs != [] {
      MapHasLast(s, bs[..|bs| - 1], h);
    }
  }

  /** The transactions of the blocks that a later block of the same height replaces. */
  function ReplacedTxs(bs: seq<Block>): nat {
    if bs == [] then 0
    else
      var front, b := bs[..|bs| - 1], bs[|bs| - 1];
      ReplacedTxs(front) + (if LastAt(front, b.height).Some? then LastAt(front, b.height).value.numTxs else 0)
  }

  lemma {:induction false} SumSplits(bs: seq<Block>)
    ensures SumTxs(bs) == MapTxs(MergeAll(EMPTY, bs).blocks) + ReplacedTxs(bs)
  {
    if bs != [] {
      var front, b := bs[..|bs| - 1], bs[|bs| - 1];
      SumSplits(front);
      SumTxsLast(bs);
      MapHasLast(EMPTY, front, b.height);
      var m := MergeAll(EMPTY, front).blocks;
      MapTxsTake(m[b.height := b], b.height);
      if b.height in m {
        MapTxsTake(m, b.height);
        assert m[b.height := b] - {b.height} == m - {b.height};
      } else {
        assert m[b.height := b] - {b.height} == m;
      }
    }
  }

  /** The count is that of the blocks in the map (mod 2^64) if and only if the blocks replaced on the way had no
      transactions (mod 2^64). */
  lemma CountIsOfMap(bs: seq<Block>)
    ensures var s := MergeAll(EMPTY, bs); s.numTxs == Wrap(MapTxs(s.blocks)) <==> Wrap(ReplacedTxs(bs)) == 0
  {
    SumSplits(bs);
    MergeCounts(EMPTY, bs);
    SumWraps(MapTxs(MergeAll(EMPTY, bs).blocks), ReplacedTxs(bs));
  }

  lemma SumWraps(a: nat, b: nat)
    ensures Wrap(a + b) == Wrap(a) <==> Wrap(b) == 0
  {
  }

  /** In particular for blocks of distinct heights: none is replaced. */
  lemma {:induction false} DistinctNoneReplaced(bs: seq<Block>)
    requires Distinct(bs)
    ensures ReplacedTxs(bs) == 0
  {
    if bs != [] {
      var front, b := bs[..|bs| - 1], bs[|bs| - 1];
      DistinctNoneReplaced(front);
      if LastAt(front, b.height).Some? {
        LastIsThere(front, b.height);
      }
    }
  }

  lemma {:induction false} LastIsThere(bs: seq<Block>, h: u64)
    requires LastAt(bs, h).Some?
    ensures exists i :: 0 <= i < |bs| && bs[i].height == h
  {
    if bs[|bs| - 1].height != h {
      LastIsThere(bs[..|bs| - 1], h);
      var i :| 0 <= i < |bs| - 1 && bs[..|bs| - 1][i].height == h;
      assert bs[i].height == h;
    }
  }

  /** Merging a present block again counts its transactions again. */
  lemma RemergeCountsAgain(s: Summary, b: Block)
    requires b.height in s.blocks && s.blocks[b.height] == b && 0 < s.startHeight <= b.height <= s.endHeight
    ensures Merge(s, b) == s.(numTxs := Wrap(s.numTxs + b.numTxs))
    ensures Merge(s, b) == s <==> b.numTxs == 0
  {
    assert s.blocks[b.height := b] == s.blocks;
  }
}
