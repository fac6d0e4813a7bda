/** Confluence of concurrent merges.  Each answer is merged as a whole under the lock, so what varies is the order of
    the answers; exactly when it does not matter, and what the map is then. */
module Confluence {
  import opened Blocks
  import opened Options
  import opened Ranges
  import Sums

  /** The same items, the k-th of them last. */
  function MovedLast<T>(xs: seq<T>, k: nat): seq<T>
    requires k < |xs|
  {
    xs[..k] + xs[k + 1..] + [xs[k]]
  }

  lemma MovedPermutes<T>(xs: seq<T>, k: nat)
    requires k < |xs|
    ensures multiset(MovedLast(xs, k)) == multiset(xs)
  {
    Sums.Removed(xs, k);
  }

  lemma SameMembers<T>(xs: seq<T>, ys: seq<T>)
    requires multiset(xs) == multiset(ys)
    ensures forall x :: x in xs <==> x in ys
  {
    forall x
      ensures x in xs <==> x in ys
    {
      assert x in xs <==> x in multiset(xs);
      assert x in ys <==> x in multiset(ys);
    }
  }

  // ----- whole answers, one after the other -----

  /** The map after merging the answers in this order. */
  function MergeAnswers(rs: seq<seq<Block>>): Summary {
    if rs == [] then EMPTY else MergeAll(MergeAnswers(rs[..|rs| - 1]), rs[|rs| - 1])
  }

  /** Every order in which the fetchers may take the lock gives the same map, count and bounds. */
  ghost predicate Confluent(rs: seq<seq<Block>>) {
    forall qs :: multiset(qs) == multiset(rs) ==> MergeAnswers(qs) == MergeAnswers(rs)
  }

  lemma AnswerLast(rs: seq<seq<Block>>, k: nat)
    requires k < |rs|
    ensures multiset(MovedLast(rs, k)) == multiset(rs)
    ensures MergeAnswers(MovedLast(rs, k)) == MergeAll(MergeAnswers(rs[..k] + rs[k + 1..]), rs[k])
  {
    MovedPermutes(rs, k);
    assert MovedLast(rs, k)[..|rs| - 1] == rs[..k] + rs[k + 1..];
  }

  predicate HasZero(bs: seq<Block>) {
    exists i :: 0 <= i < |bs| && bs[i].height == 0
  }

  /** The blocks after the last one of height 0, or all if there is none. */
  function AfterZero(bs: seq<Block>): seq<Block> {
    if bs == [] || bs[|bs| - 1].height == 0 then [] else AfterZero(bs[..|bs| - 1]) + [bs[|bs| - 1]]
  }

  /** The least height of the blocks, 0 if there are none. */
  ghost predicate LeastHeight(bs: seq<Block>, s: u64) {
    if bs == [] then s == 0
    else (exists i :: 0 <= i < |bs| && bs[i].height == s) && forall i :: 0 <= i < |bs| ==> s <= bs[i].height
  }

  /** Answers that share a height end with the same block of it. */
  ghost predicate LastsAgree(rs: seq<seq<Block>>) {
    forall p, q, h: u64 :: p in rs && q in rs && LastAt(p, h).Some? && LastAt(q, h).Some? ==>
      LastAt(p, h) == LastAt(q, h)
  }

  /** The answer fits a start of s: with a height 0 in it, it leaves s whatever the start was; without, it has no height
      below s, and no height at all if s is 0. */
  ghost predicate StartsAt(r: seq<Block>, s: u64) {
    if HasZero(r) then LeastHeight(AfterZero(r), s) else forall i :: 0 <= i < |r| ==> 0 < s <= r[i].height
  }

  ghost predicate StartsAgree(rs: seq<seq<Block>>, s: u64) {
    forall r :: r in rs ==> StartsAt(r, s)
  }

  // ----- the map -----

  /** Under agreement the map holds, at each height, what any answer with that height ends with. */
  lemma {:induction false} MapAgreed(rs: seq<seq<Block>>, h: u64)
    requires LastsAgree(rs)
    ensures forall r :: r in rs && LastAt(r, h).Some? ==> Lookup(MergeAnswers(rs).blocks, h) == LastAt(r, h)
    ensures (forall r :: r in rs ==> LastAt(r, h).None?) ==> Lookup(MergeAnswers(rs).blocks, h) == None
  {
    if rs != [] {
      var front, last := rs[..|rs| - 1], rs[|rs| - 1];
      assert rs == front + [last];
      MapAgreed(front, h);
      MapHasLast(MergeAnswers(front), last, h);
    }
  }

  lemma SameMap(rs: seq<seq<Block>>, qs: seq<seq<Block>>)
    requires multiset(rs) == multiset(qs) && LastsAgree(rs)
    ensures MergeAnswers(rs).blocks == MergeAnswers(qs).blocks
  {
    SameMembers(rs, qs);
    forall h: u64
      ensures Lookup(MergeAnswers(rs).blocks, h) == Lookup(MergeAnswers(qs).blocks, h)
    {
      MapAgreed(rs, h);
      MapAgreed(qs, h);
    }
    MapsEqual(MergeAnswers(rs).blocks, MergeAnswers(qs).blocks);
  }

  lemma MapsEqual(m: map<u64, Block>, n: map<u64, Block>)
    requires forall h :: Lookup(m, h) == Lookup(n, h)
    ensures m == n
  {
    forall h: u64
      ensures h in m <==> h in n
      ensures h in m ==> h in n && m[h] == n[h]
    {
      assert Lookup(m, h) == Lookup(n, h);
    }
  }

  /** Of two answers with a height, the one merged last has its way. */
  lemma LastAnswerStays(rs: seq<seq<Block>>, k: nat, h: u64)
    requires k < |rs| && LastAt(rs[k], h).Some? && Confluent(rs)
    ensures Lookup(MergeAnswers(rs).blocks, h) == LastAt(rs[k], h)
  {
    AnswerLast(rs, k);
    MapHasLast(MergeAnswers(rs[..k] + rs[k + 1..]), rs[k], h);
  }

  // ----- the count -----

  function AnswerTxs(): seq<Block> -> nat {
    (r: seq<Block>) => SumTxs(r)
  }

  lemma {:induction false} AnswersCount(rs: seq<seq<Block>>)
    ensures MergeAnswers(rs).numTxs == Wrap(Sums.Sum(AnswerTxs(), rs))
  {
    if rs != [] {
      var front, last := rs[..|rs| - 1], rs[|rs| - 1];
      assert rs == front + [last];
      AnswersCount(front);
      Sums.SumAppend(AnswerTxs(), front, last);
      MergeCounts(MergeAnswers(front), last);
      AddWrap(SumTxs(last), Sums.Sum(AnswerTxs(), front));
    }
  }

  // ----- the end -----

  /** The end is the greatest height held, or unset when nothing is held. */
  ghost predicate EndsWell(s: Summary) {
    && (if s.blocks.Keys == {} then s.endHeight == 0 else s.endHeight in s.blocks.Keys)
    && forall h :: h in s.blocks ==> h <= s.endHeight
  }

  lemma {:induction false} MergeEnds(s: Summary, bs: seq<Block>)
    requires EndsWell(s)
    ensures EndsWell(MergeAll(s, bs))
  {
    if bs != [] {
      MergeEnds(s, bs[..|bs| - 1]);
      EndsOneMore(MergeAll(s, bs[..|bs| - 1]), bs[|bs| - 1]);
    }
  }

  lemma EndsOneMore(s: Summary, b: Block)
    requires EndsWell(s)
    ensures EndsWell(Merge(s, b))
  {
    assert b.height in Merge(s, b).blocks.Keys;
  }

  lemma {:induction false} AnswersEnd(rs: seq<seq<Block>>)
    ensures EndsWell(MergeAnswers(rs))
  {
    if rs != [] {
      AnswersEnd(rs[..|rs| - 1]);
      MergeEnds(MergeAnswers(rs[..|rs| - 1]), rs[|rs| - 1]);
    }
  }

  // ----- the start -----

  lemma {:induction false} AfterZeroPositive(bs: seq<Block>)
    ensures forall i :: 0 <= i < |AfterZero(bs)| ==> AfterZero(bs)[i].height > 0
  {
    if bs != [] {
      AfterZeroPositive(bs[..|bs| - 1]);
    }
  }

  lemma LeastOneMore(bs: seq<Block>, s: u64, b: Block)
    requires LeastHeight(bs, s) && (forall i :: 0 <= i < |bs| ==> bs[i].height > 0) && b.height > 0
    ensures LeastHeight(bs + [b], if s == 0 || s > b.height then b.height else s)
  {
    var more := bs + [b];
    if s == 0 || s > b.height {
      assert more[|bs|].height == b.height;
    } else {
      var i :| 0 <= i < |bs| && bs[i].height == s;
      assert more[i].height == s;
    }
  }

  /** An answer with a height 0 sets the start, whatever it was. */
  lemma {:induction false} ZeroSets(t: Summary, r: seq<Block>)
    requires HasZero(r)
    ensures LeastHeight(AfterZero(r), MergeAll(t, r).startHeight)
  {
    var front, b := r[..|r| - 1], r[|r| - 1];
    if b.height > 0 {
      var i :| 0 <= i < |r| && r[i].height == 0;
      assert front[i].height == 0;
      ZeroSets(t, front);
      AfterZeroPositive(front);
      LeastOneMore(AfterZero(front), MergeAll(t, front).startHeight, b);
    }
  }

  lemma LeastUnique(bs: seq<Block>, s: u64, t: u64)
    requires LeastHeight(bs, s) && LeastHeight(bs, t)
    ensures s == t
  {
  }

  /** An answer without one takes a start no lower than its lowest height. */
  lemma {:induction false} NoZeroStart(t: Summary, r: seq<Block>)
    requires !HasZero(r)
    ensures r != [] ==> MergeAll(t, r).startHeight > 0
    ensures forall i :: 0 <= i < |r| ==> MergeAll(t, r).startHeight <= r[i].height
    ensures (forall i :: 0 <= i < |r| ==> 0 < t.startHeight <= r[i].height) ==>
              MergeAll(t, r).startHeight == t.startHeight
  {
    if r != [] {
      var front := r[..|r| - 1];
      assert forall i :: 0 <= i < |front| ==> front[i] == r[i];
      NoZeroStart(t, front);
      assert r[|r| - 1].height > 0;
    }
  }

  /** With a height 0 anywhere, agreeing answers leave the start they agree on. */
  lemma {:induction false} StartAgreed(rs: seq<seq<Block>>, s: u64)
    requires StartsAgree(rs, s)
    ensures (exists r :: r in rs && HasZero(r)) ==> MergeAnswers(rs).startHeight == s
  {
    if rs != [] {
      var front, last := rs[..|rs| - 1], rs[|rs| - 1];
      assert rs == front + [last];
      assert StartsAt(last, s);
      StartAgreed(front, s);
      if HasZero(last) {
        ZeroSets(MergeAnswers(front), last);
        LeastUnique(AfterZero(last), s, MergeAnswers(rs).startHeight);
      } else {
        NoZeroStart(MergeAnswers(front), last);
      }
    }
  }

  /** Without one, the bounds are the least and the greatest height. */
  lemma {:induction false} PositiveBounded(rs: seq<seq<Block>>)
    requires forall r :: r in rs ==> !HasZero(r)
    ensures Bounded(MergeAnswers(rs)) && 0 !in MergeAnswers(rs).blocks
  {
    if rs != [] {
      var front, last := rs[..|rs| - 1], rs[|rs| - 1];
      assert rs == front + [last];
      PositiveBounded(front);
      AnswerBounded(MergeAnswers(front), last);
    }
  }

  lemma {:induction false} AnswerBounded(s: Summary, r: seq<Block>)
    requires Bounded(s) && 0 !in s.blocks && !HasZero(r)
    ensures Bounded(MergeAll(s, r)) && 0 !in MergeAll(s, r).blocks
  {
    if r != [] {
      var front := r[..|r| - 1];
      assert forall i :: 0 <= i < |front| ==> front[i] == r[i];
      AnswerBounded(s, front);
      assert r[|r| - 1].height > 0;
      BoundedOneMore(MergeAll(s, front), r[|r| - 1]);
    }
  }

  lemma SameStart(rs: seq<seq<Block>>, qs: seq<seq<Block>>, s: u64)
    requires multiset(rs) == multiset(qs) && LastsAgree(rs) && StartsAgree(rs, s)
    ensures MergeAnswers(rs).startHeight == MergeAnswers(qs).startHeight
  {
    SameMembers(rs, qs);
    if exists r :: r in rs && HasZero(r) {
      StartAgreed(rs, s);
      StartAgreed(qs, s);
    } else {
      PositiveBounded(rs);
      PositiveBounded(qs);
      SameMap(rs, qs);
    }
  }

  // ----- exactly when the order does not matter -----

  lemma AgreeingCommute(rs: seq<seq<Block>>, s: u64)
    requires LastsAgree(rs) && StartsAgree(rs, s)
    ensures Confluent(rs)
  {
    forall qs | multiset(qs) == multiset(rs)
      ensures MergeAnswers(qs) == MergeAnswers(rs)
    {
      SameMap(rs, qs);
      SameStart(rs, qs, s);
      AnswersEnd(rs);
      AnswersEnd(qs);
      AnswersCount(rs);
      AnswersCount(qs);
      Sums.SumPermuted(AnswerTxs(), rs, qs);
    }
  }

  lemma ConfluentLasts(rs: seq<seq<Block>>)
    requires Confluent(rs)
    ensures LastsAgree(rs)
  {
    forall p, q, h: u64 | p in rs && q in rs && LastAt(p, h).Some? && LastAt(q, h).Some?
      ensures LastAt(p, h) == LastAt(q, h)
    {
      var i :| 0 <= i < |rs| && rs[i] == p;
      var j :| 0 <= j < |rs| && rs[j] == q;
      LastAnswerStays(rs, i, h);
      LastAnswerStays(rs, j, h);
    }
  }

  lemma PositiveStarts(rs: seq<seq<Block>>)
    requires forall r :: r in rs ==> !HasZero(r)
    ensures StartsAgree(rs, 1)
  {
    forall r: seq<Block>, i | r in rs && 0 <= i < |r|
      ensures r[i].height >= 1
    {
      assert r[i].height != 0;
    }
  }

  /** The start that confluent answers agree on: with a height 0 among them it is the start they all leave. */
  lemma ConfluentStarts(rs: seq<seq<Block>>) returns (s: u64)
    requires Confluent(rs)
    ensures StartsAgree(rs, s)
  {
    if exists r :: r in rs && HasZero(r) {
      s := MergeAnswers(rs).startHeight;
      var z :| z in rs && HasZero(z);
      var i :| 0 <= i < |rs| && rs[i] == z;
      forall r | r in rs
        ensures StartsAt(r, s)
      {
        var k :| 0 <= k < |rs| && rs[k] == r;
        AnswerLast(rs, k);
        var others := MergeAnswers(rs[..k] + rs[k + 1..]);
        if HasZero(r) {
          ZeroSets(others, r);
        } else {
          NoZeroStart(others, r);
        }
      }
    } else {
      s := 1;
      PositiveStarts(rs);
    }
  }

  /** Confluence, exactly: every order of the answers gives the same map, count and bounds if and only if answers that
      share a height end with the same block of it, and all fit one start height. */
  lemma MergesCommute(rs: seq<seq<Block>>)
    ensures Confluent(rs) <==> LastsAgree(rs) && exists s: u64 :: StartsAgree(rs, s)
  {
    if Confluent(rs) {
      ConfluentLasts(rs);
      var s := ConfluentStarts(rs);
    } else if LastsAgree(rs) && exists s: u64 :: StartsAgree(rs, s) {
      var s: u64 :| StartsAgree(rs, s);
      AgreeingCommute(rs, s);
    }
  }

  /** Among positive heights the start never matters. */
  lemma PositiveMergesCommute(rs: seq<seq<Block>>)
    requires forall r :: r in rs ==> !HasZero(r)
    ensures Confluent(rs) <==> LastsAgree(rs)
  {
    MergesCommute(rs);
    PositiveStarts(rs);
  }

  /** With a height 0 in some answer, that answer says which start all must fit. */
  lemma ZeroMergesCommute(rs: seq<seq<Block>>, z: seq<Block>, s: u64)
    requires z in rs && HasZero(z) && LeastHeight(AfterZero(z), s)
    ensures Confluent(rs) <==> LastsAgree(rs) && StartsAgree(rs, s)
  {
    MergesCommute(rs);
    if t: u64 :| StartsAgree(rs, t) {
      assert StartsAt(z, t);
      LeastUnique(AfterZero(z), s, t);
    }
  }

  // ----- single blocks: whatever the answers they come in -----

  /** The same for orders of single blocks. */
  ghost predicate ConfluentSingly(xs: seq<Block>) {
    forall ys :: multiset(ys) == multiset(xs) ==> MergeAll(EMPTY, ys) == MergeAll(EMPTY, xs)
  }

  lemma SummaryUnique(s: Summary, t: Summary, bs: multiset<Block>)
    requires Holds(s, bs) && Holds(t, bs) && Bounded(s) && Bounded(t) && s.numTxs == t.numTxs
    ensures s == t
  {
    forall h | h in HeightsOf(bs)
      ensures s.blocks[h] == t.blocks[h]
    {
      var b :| b in bs && b.height == h;
    }
    assert s.blocks == t.blocks;
  }

  /** The condition does not depend on the order either. */
  lemma ConditionPermuted(xs: seq<Block>, ys: seq<Block>)
    requires multiset(xs) == multiset(ys) && Consistent(xs) && (Positive(xs) || AllZero(xs))
    ensures Consistent(ys) && (Positive(ys) || AllZero(ys))
  {
    forall i | 0 <= i < |ys|
      ensures exists k :: 0 <= k < |xs| && xs[k] == ys[i]
    {
      assert ys[i] in multiset(xs);
    }
    forall i, j | 0 <= i < j < |ys| && ys[i].height == ys[j].height
      ensures ys[i] == ys[j]
    {
      var p :| 0 <= p < |xs| && xs[p] == ys[i];
      var q :| 0 <= q < |xs| && xs[q] == ys[j];
    }
  }

  lemma MergedBounds(xs: seq<Block>)
    requires Positive(xs) || AllZero(xs)
    ensures Bounded(MergeAll(EMPTY, xs))
  {
    if Positive(xs) {
      MergeBounded(xs);
    } else {
      ZeroBounded(xs);
    }
  }

  /** Under the condition the summary is the one the multiset of blocks alone determines. */
  lemma MergedSummary(xs: seq<Block>)
    requires Consistent(xs) && (Positive(xs) || AllZero(xs))
    ensures var s := MergeAll(EMPTY, xs); Holds(s, multiset(xs)) && Bounded(s) && s.numTxs == Wrap(SumTxs(xs))
  {
    MergeHolds(xs);
    MergeCounts(EMPTY, xs);
    MergedBounds(xs);
  }

  lemma MergedLast(xs: seq<Block>, k: nat)
    requires k < |xs|
    ensures multiset(MovedLast(xs, k)) == multiset(xs)
    ensures MergeAll(EMPTY, MovedLast(xs, k)) == Merge(MergeAll(EMPTY, xs[..k] + xs[k + 1..]), xs[k])
  {
    MovedPermutes(xs, k);
    MergeOneMore(EMPTY, xs[..k] + xs[k + 1..], xs[k]);
  }

  /** Height 0 is taken for "not set yet": merged last it becomes the start, but a positive height merged last never
      leaves it there. */
  lemma HeightZeroOrderMatters(xs: seq<Block>, i: nat, j: nat)
    requires i < |xs| && j < |xs| && xs[i].height == 0 && xs[j].height > 0
    ensures multiset(MovedLast(xs, i)) == multiset(MovedLast(xs, j)) == multiset(xs)
    ensures MergeAll(EMPTY, MovedLast(xs, i)).startHeight == 0 < MergeAll(EMPTY, MovedLast(xs, j)).startHeight
  {
    MergedLast(xs, i);
    MergedLast(xs, j);
  }

  /** Of two blocks of one height the one merged last stays. */
  lemma LastBlockStays(xs: seq<Block>, i: nat, j: nat)
    requires i < |xs| && j < |xs| && xs[i].height == xs[j].height
    ensures multiset(MovedLast(xs, i)) == multiset(MovedLast(xs, j)) == multiset(xs)
    ensures var h := xs[i].height;
            && h in MergeAll(EMPTY, MovedLast(xs, i)).blocks && h in MergeAll(EMPTY, MovedLast(xs, j)).blocks
            && MergeAll(EMPTY, MovedLast(xs, i)).blocks[h] == xs[i]
            && MergeAll(EMPTY, MovedLast(xs, j)).blocks[h] == xs[j]
  {
    MergedLast(xs, i);
    MergedLast(xs, j);
  }

  /** Every order of the single blocks gives the same map, count and bounds if and only if blocks of the same height are
      the same block and the heights are all positive or all zero. */
  lemma BlockOrdersCommute(xs: seq<Block>)
    ensures ConfluentSingly(xs) <==> Consistent(xs) && (Positive(xs) || AllZero(xs))
  {
    if Consistent(xs) && (Positive(xs) || AllZero(xs)) {
      forall ys | multiset(ys) == multiset(xs)
        ensures MergeAll(EMPTY, ys) == MergeAll(EMPTY, xs)
      {
        ConditionPermuted(xs, ys);
        MergedSummary(xs);
        MergedSummary(ys);
        Sums.SumPermuted(TxsOf(), xs, ys);
        SummaryUnique(MergeAll(EMPTY, xs), MergeAll(EMPTY, ys), multiset(xs));
      }
    } else if !Consistent(xs) {
      var i, j :| 0 <= i < j < |xs| && xs[i].height == xs[j].height && xs[i] != xs[j];
      LastBlockStays(xs, i, j);
    } else {
      var i :| 0 <= i < |xs| && xs[i].height == 0;
      var j :| 0 <= j < |xs| && xs[j].height > 0;
      HeightZeroOrderMatters(xs, i, j);
    }
  }

  /** Blocks of distinct positive heights, merged in any order: the map holds exactly them, the bounds are its least and
      greatest height, and the count is the sum over the map (mod 2^64). */
  lemma DistinctMerged(xs: seq<Block>, ys: seq<Block>)
    requires Distinct(xs) && Positive(xs) && multiset(ys) == multiset(xs)
    ensures var s := MergeAll(EMPTY, ys);
            && Holds(s, multiset(xs)) && Bounded(s) && s.numTxs == Wrap(MapTxs(s.blocks))
            && s == MergeAll(EMPTY, xs)
  {
    BlockOrdersCommute(xs);
    MergedSummary(xs);
    DistinctNoneReplaced(xs);
    CountIsOfMap(xs);
  }
}
