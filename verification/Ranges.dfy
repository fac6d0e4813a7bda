/** uint64 height ranges, and the two loops that cut a range into pieces: `GetTransactions` cuts the
    requested range into pieces of `bigPage` heights, `getRangeSingular` cuts each of those into requests of
    20 heights.  Both loops have the same shape and both compute in wrapping uint64 arithmetic. */
module Ranges {

  const TWO_64: int := 0x1_0000_0000_0000_0000
  const REQUEST_SIZE: u64 := 20

  type u64 = x: int | 0 <= x < TWO_64

  /** The value of an integer expression once it is stored in a uint64. */
  function Wrap(x: int): u64 {
    x % TWO_64
  }

  datatype Range = Range(lo: u64, hi: u64)

  /** The bounds the loop computes in its i-th turn: the end is clamped to the end of the whole range. */
  function PieceAt(whole: Range, size: u64, i: nat): Range {
    var hi := Wrap(whole.lo + i * size + size - 1);
    Range(Wrap(whole.lo + i * size), if hi > whole.hi then whole.hi else hi)
  }

  /** The loop leaves in turn n, and in no earlier one. */
  ghost predicate LeavesAt(whole: Range, size: u64, n: nat) {
    && PieceAt(whole, size, n).hi == whole.hi
    && forall k: nat :: k < n ==> PieceAt(whole, size, k).hi != whole.hi
  }

  /** The loop leaves at all. */
  ghost predicate Stops(whole: Range, size: u64) {
    exists n: nat :: LeavesAt(whole, size, n)
  }

  /** How many pieces the loop produces. */
  ghost function Total(whole: Range, size: u64): (t: nat)
    requires Stops(whole, size)
    ensures t > 0 && LeavesAt(whole, size, t - 1)
  {
    var n: nat :| LeavesAt(whole, size, n);
    n + 1
  }

  ghost predicate AreThePieces(whole: Range, size: u64, pieces: seq<Range>)
    requires Stops(whole, size)
  {
    && |pieces| == Total(whole, size)
    && forall k :: 0 <= k < |pieces| ==> pieces[k] == PieceAt(whole, size, k)
  }

  /** The paging loop itself, with every uint64 operation wrapped separately. */
  method Cut(whole: Range, size: u64) returns (pieces: seq<Range>)
    requires Stops(whole, size)
    ensures AreThePieces(whole, size, pieces)
  {
    ghost var t := Total(whole, size);
    pieces := [];
    var i: u64 := 0;
    while true
      invariant |pieces| < t
      invariant i == Wrap(|pieces|)
      invariant forall k :: 0 <= k < |pieces| ==> pieces[k] == PieceAt(whole, size, k)
      decreases t - |pieces|
    {
      ghost var n := |pieces|;
      var piece := Turn(whole, size, n, i);
      pieces := pieces + [piece];
      ExitTest(whole, size, n);
      AddWrap(1, n);
      i := Wrap(1 + i);
      if piece.hi == whole.hi {
        return;
      }
    }
  }

  /** One turn of the loop: the bounds, computed in uint64. */
  method Turn(whole: Range, size: u64, ghost n: nat, i: u64) returns (piece: Range)
    requires i == Wrap(n)
    ensures piece == PieceAt(whole, size, n)
  {
    var lo := Wrap(whole.lo + Wrap(i * size));
    var hi := Wrap(Wrap(lo + size) - 1);
    TurnIsPiece(whole, size, n, i, lo, hi);
    if hi > whole.hi {
      hi := whole.hi;
    }
    piece := Range(lo, hi);
  }

  lemma ExitTest(whole: Range, size: u64, n: nat)
    requires Stops(whole, size) && n < Total(whole, size)
    ensures PieceAt(whole, size, n).hi == whole.hi <==> n + 1 == Total(whole, size)
  {
  }

  /** One turn computed with every operation wrapped is the piece computed with one wrap at the end. */
  lemma TurnIsPiece(whole: Range, size: u64, n: nat, i: u64, lo: u64, hi: u64)
    requires i == Wrap(n) && lo == Wrap(whole.lo + Wrap(i * size)) && hi == Wrap(Wrap(lo + size) - 1)
    ensures PieceAt(whole, size, n) == Range(lo, if hi > whole.hi then whole.hi else hi)
  {
    MulWrap(n, size);
    TurnWraps(whole.lo, n * size, i * size, size);
  }

  lemma TurnWraps(start: u64, m: int, product: int, size: u64)
    requires Wrap(product) == Wrap(m)
    ensures Wrap(start + Wrap(product)) == Wrap(start + m)
    ensures Wrap(Wrap(Wrap(start + Wrap(product)) + size) - 1) == Wrap(start + m + size - 1)
  {
    AddWrap(start, m);
    EndWrap(start + m, size);
  }

  lemma EndWrap(v: int, size: u64)
    ensures Wrap(Wrap(Wrap(v) + size) - 1) == Wrap(v + size - 1)
  {
  }

  lemma MulWrap(n: nat, size: u64)
    ensures Wrap(Wrap(n) * size) == Wrap(n * size)
  {
    var q, r := n / TWO_64, Wrap(n);
    Distribute(q, TWO_64, r, size);
    SameWrap(r * size, n * size, q * size);
  }

  lemma Distribute(q: int, t: int, r: int, size: int)
    ensures (q * t + r) * size == r * size + q * size * t
  {
  }

  lemma SameWrap(a: int, b: int, q: int)
    requires b == a + q * TWO_64
    ensures Wrap(a) == Wrap(b)
  {
    var qa, qb := a / TWO_64, b / TWO_64;
    assert Wrap(a) - Wrap(b) == (qb - qa - q) * TWO_64;
  }

  lemma AddWrap(a: int, b: int)
    ensures Wrap(a + Wrap(b)) == Wrap(a + b)
  {
    SameWrap(a + Wrap(b), a + b, b / TWO_64);
  }

  // ----- what a list of pieces should be -----

  /** The pieces are ascending, non-empty, adjacent, and together are exactly the whole range. */
  ghost predicate Tiles(whole: Range, pieces: seq<Range>) {
    && pieces != []
    && pieces[0].lo == whole.lo
    && pieces[|pieces| - 1].hi == whole.hi
    && (forall k :: 0 <= k < |pieces| ==> pieces[k].lo <= pieces[k].hi)
    && (forall k :: 0 <= k < |pieces| - 1 ==> pieces[k].hi + 1 == pieces[k + 1].lo)
  }

  /** The turn in which the loop ought to leave. */
  function LastTurn(whole: Range, size: u64): nat
    requires whole.lo <= whole.hi
  {
    if size == 0 then 0 else (whole.hi - whole.lo) / size
  }

  /** The loop's own exit test, evaluated once, in uint64 arithmetic, for that turn. */
  predicate Reaches(whole: Range, size: u64)
    requires whole.lo <= whole.hi
  {
    Wrap(whole.lo + LastTurn(whole, size) * size + size - 1) >= whole.hi
  }

  /** Where the regular turns of the loop lie. */
  lemma RegularTurn(whole: Range, size: u64, k: nat)
    requires whole.lo <= whole.hi && size > 0 && k <= LastTurn(whole, size)
    ensures whole.lo + k * size <= whole.hi
    ensures PieceAt(whole, size, k).lo == whole.lo + k * size
    ensures k < LastTurn(whole, size) ==> PieceAt(whole, size, k).hi == whole.lo + (k + 1) * size - 1 < whole.hi
    ensures k == LastTurn(whole, size) ==>
              if Reaches(whole, size) then PieceAt(whole, size, k).hi == whole.hi
              else PieceAt(whole, size, k).hi < PieceAt(whole, size, k).lo
  {
    Multiples(whole.hi - whole.lo, size, k);
    EndWrapsOnce(whole.lo + k * size, size);
  }

  /** The end of a piece that starts below 2^64 wraps at most once. */
  lemma EndWrapsOnce(lo: int, size: u64)
    requires 0 <= lo < TWO_64 && size > 0
    ensures Wrap(lo) == lo
    ensures var v := lo + size - 1; Wrap(v) == (if v < TWO_64 then v else v - TWO_64)
    ensures lo + size - 1 >= TWO_64 ==> Wrap(lo + size - 1) < lo
  {
  }

  lemma Multiples(d: nat, size: nat, k: nat)
    requires size > 0 && k <= d / size
    ensures k * size <= d && (k + 1) * size == k * size + size
    ensures k < d / size ==> k * size + size <= d
    ensures k == d / size ==> d < k * size + size
  {
    var n := d / size;
    assert n * size <= d < n * size + size;
    if k < n {
      MulMonotone(k + 1, n, size);
    }
  }

  lemma MulMonotone(a: nat, b: nat, c: nat)
    requires a <= b
    ensures a * c <= b * c
  {
  }

  lemma LeavesInLastTurn(whole: Range, size: u64)
    requires whole.lo <= whole.hi && Reaches(whole, size)
    ensures LeavesAt(whole, size, LastTurn(whole, size))
  {
    var n := LastTurn(whole, size);
    if size == 0 {
      assert whole.lo + 0 * size == whole.lo;
    } else {
      forall k: nat | k <= n
        ensures k < n ==> PieceAt(whole, size, k).hi != whole.hi
        ensures k == n ==> PieceAt(whole, size, k).hi == whole.hi
      {
        RegularTurn(whole, size, k);
      }
    }
  }

  /** No piece up to the last turn is inverted, and each ends where the next begins. */
  lemma PieceInPlace(whole: Range, size: u64, k: nat)
    requires whole.lo <= whole.hi && Reaches(whole, size) && k <= LastTurn(whole, size)
    ensures var p := PieceAt(whole, size, k); whole.lo <= p.lo <= p.hi <= whole.hi
    ensures k < LastTurn(whole, size) ==> PieceAt(whole, size, k).hi + 1 == PieceAt(whole, size, k + 1).lo
  {
    if size == 0 {
      FirstPiece(whole, size);
    } else {
      RegularTurn(whole, size, k);
      if k < LastTurn(whole, size) {
        NextPiece(whole, size, k);
        NextHeight(whole.lo, k, size);
      }
    }
  }

  lemma NextHeight(lo: u64, k: nat, size: u64)
    requires size > 0
    ensures lo + k * size <= lo + (k + 1) * size - 1
  {
  }

  lemma NextPiece(whole: Range, size: u64, k: nat)
    requires whole.lo <= whole.hi && k < LastTurn(whole, size)
    ensures PieceAt(whole, size, k).hi + 1 == PieceAt(whole, size, k + 1).lo
  {
    RegularTurn(whole, size, k);
    RegularTurn(whole, size, k + 1);
  }

  lemma FirstPiece(whole: Range, size: u64)
    ensures PieceAt(whole, size, 0).lo == whole.lo
  {
    assert whole.lo + 0 * size == whole.lo;
  }

  /** When the exit test is met in the last turn, the loop leaves there and its pieces tile the range. */
  lemma ReachesTiles(whole: Range, size: u64)
    requires whole.lo <= whole.hi && Reaches(whole, size)
    ensures Stops(whole, size) && Total(whole, size) == LastTurn(whole, size) + 1
    ensures forall pieces :: AreThePieces(whole, size, pieces) ==> Tiles(whole, pieces)
  {
    var n := LastTurn(whole, size);
    LeavesInLastTurn(whole, size);
    LeavesOnce(whole, size, n, Total(whole, size) - 1);
    FirstPiece(whole, size);
    forall pieces: seq<Range> | AreThePieces(whole, size, pieces)
      ensures Tiles(whole, pieces)
    {
      forall k: nat | k < |pieces|
        ensures pieces[k].lo <= pieces[k].hi
        ensures k < n ==> pieces[k].hi + 1 == pieces[k + 1].lo
      {
        PieceInPlace(whole, size, k);
      }
    }
  }

  lemma LeavesOnce(whole: Range, size: u64, m: nat, n: nat)
    requires LeavesAt(whole, size, m) && LeavesAt(whole, size, n)
    ensures m == n
  {
  }

  /** With size zero every turn computes the same end. */
  lemma ConstantEnd(whole: Range, n: nat)
    ensures PieceAt(whole, 0, n) == PieceAt(whole, 0, 0)
  {
    assert n * 0 == 0;
  }

  /** When it is not met, a loop that leaves at all has produced an inverted piece on the way. */
  lemma OverrunInverts(whole: Range, size: u64, pieces: seq<Range>)
    requires whole.lo <= whole.hi && !Reaches(whole, size)
    requires Stops(whole, size) && AreThePieces(whole, size, pieces)
    ensures exists k :: 0 <= k < |pieces| && pieces[k].lo > pieces[k].hi
  {
    var n := LastTurn(whole, size);
    if size == 0 {
      ConstantEnd(whole, Total(whole, size) - 1);
    }
    RegularTurn(whole, size, n);
    if |pieces| <= n {
      RegularTurn(whole, size, |pieces| - 1);
    }
    assert pieces[n] == PieceAt(whole, size, n);
  }

  /** Exactly when one loop covers its range: the loop leaves and tiles the range if and only if the exit test
      is met in the turn in which it should be. */
  lemma TilesIffReaches(whole: Range, size: u64)
    requires whole.lo <= whole.hi
    ensures (exists pieces :: Stops(whole, size) && AreThePieces(whole, size, pieces) && Tiles(whole, pieces))
            <==> Reaches(whole, size)
  {
    if Reaches(whole, size) {
      ReachesTiles(whole, size);
      var pieces := seq(Total(whole, size), (k: nat) => PieceAt(whole, size, k));
      assert AreThePieces(whole, size, pieces);
    } else if exists pieces :: Stops(whole, size) && AreThePieces(whole, size, pieces) && Tiles(whole, pieces) {
      var pieces :| Stops(whole, size) && AreThePieces(whole, size, pieces) && Tiles(whole, pieces);
      OverrunInverts(whole, size, pieces);
    }
  }

  /** No piece is longer than the loop's step, whatever wraps. */
  lemma PieceSpan(whole: Range, size: u64, i: nat)
    requires size > 0
    ensures var p := PieceAt(whole, size, i); p.lo <= p.hi ==> p.hi - p.lo < size
  {
    var v := whole.lo + i * size;
    AddWrap(size - 1, v);
    assert Wrap(v + size - 1) == Wrap(Wrap(v) + size - 1);
    StepSpan(Wrap(v), size);
  }

  lemma StepSpan(lo: u64, size: u64)
    requires size > 0
    ensures var hi := Wrap(lo + size - 1); lo <= hi ==> hi - lo < size
  {
  }

  // ----- both levels -----

  /** The requests of the two nested loops, in the order in which they are started. */
  ghost function Requests(whole: Range, bigPage: u64, chunks: nat): seq<Range>
    requires forall i: nat :: i < chunks ==> Stops(PieceAt(whole, bigPage, i), REQUEST_SIZE)
  {
    if chunks == 0 then []
    else
      var chunk := PieceAt(whole, bigPage, chunks - 1);
      Requests(whole, bigPage, chunks - 1)
      + seq(Total(chunk, REQUEST_SIZE), (k: nat) => PieceAt(chunk, REQUEST_SIZE, k))
  }

  /** Both loops leave, at every level. */
  ghost predicate AllStop(whole: Range, bigPage: u64) {
    && Stops(whole, bigPage)
    && forall i: nat :: i < Total(whole, bigPage) ==> Stops(PieceAt(whole, bigPage, i), REQUEST_SIZE)
  }

  /** The nested loops of `GetTransactions` and `getRangeSingular`: which requests a task starts. */
  method PlanRequests(whole: Range, bigPage: u64) returns (requests: seq<Range>)
    requires AllStop(whole, bigPage)
    ensures requests == Requests(whole, bigPage, Total(whole, bigPage))
  {
    var chunks := Cut(whole, bigPage);
    requests := [];
    for i := 0 to |chunks|
      invariant requests == Requests(whole, bigPage, i)
    {
      var pieces := Cut(chunks[i], REQUEST_SIZE);
      assert pieces == seq(Total(chunks[i], REQUEST_SIZE), (k: nat) => PieceAt(chunks[i], REQUEST_SIZE, k));
      requests := requests + pieces;
    }
  }

  /** The exit tests of both loops in the last turn of each. */
  predicate BothReach(whole: Range, bigPage: u64)
    requires whole.lo <= whole.hi
  {
    && Reaches(whole, bigPage)
    && (LastChunkRegular(whole, bigPage);
        Reaches(PieceAt(whole, bigPage, LastTurn(whole, bigPage)), REQUEST_SIZE))
  }

  lemma LastChunkRegular(whole: Range, bigPage: u64)
    requires whole.lo <= whole.hi && Reaches(whole, bigPage)
    ensures var p := PieceAt(whole, bigPage, LastTurn(whole, bigPage)); whole.lo <= p.lo <= p.hi == whole.hi
  {
    if bigPage > 0 {
      RegularTurn(whole, bigPage, LastTurn(whole, bigPage));
    }
  }

  /** If the last chunk's requests do not overrun, no earlier chunk's do. */
  lemma EarlierChunksReach(whole: Range, bigPage: u64, i: nat)
    requires whole.lo <= whole.hi && BothReach(whole, bigPage) && i <= LastTurn(whole, bigPage)
    ensures var p := PieceAt(whole, bigPage, i); p.lo <= p.hi && Reaches(p, REQUEST_SIZE)
  {
    LastChunkRegular(whole, bigPage);
    if i < LastTurn(whole, bigPage) {
      RegularTurn(whole, bigPage, i);
      ChunkBeforeLast(whole, bigPage, i);
      ReachesBelow(PieceAt(whole, bigPage, i), PieceAt(whole, bigPage, LastTurn(whole, bigPage)));
    }
  }

  lemma ChunkBeforeLast(whole: Range, bigPage: u64, i: nat)
    requires whole.lo <= whole.hi && i < LastTurn(whole, bigPage)
    ensures PieceAt(whole, bigPage, i).hi < PieceAt(whole, bigPage, LastTurn(whole, bigPage)).lo
  {
    RegularTurn(whole, bigPage, i);
    RegularTurn(whole, bigPage, LastTurn(whole, bigPage));
    MulMonotone(i + 1, LastTurn(whole, bigPage), bigPage);
  }

  lemma ReachesBelow(p: Range, q: Range)
    requires p.lo <= p.hi < q.lo <= q.hi && Reaches(q, REQUEST_SIZE)
    ensures Reaches(p, REQUEST_SIZE)
  {
    StepBelow(p);
    StepBelow(q);
  }

  /** The request loop overruns only within 20 heights of the end of uint64. */
  lemma StepBelow(p: Range)
    requires p.lo <= p.hi
    ensures var v := p.lo + LastTurn(p, REQUEST_SIZE) * REQUEST_SIZE + REQUEST_SIZE - 1;
            p.lo + 19 <= v && p.hi <= v <= p.hi + 19 && (Reaches(p, REQUEST_SIZE) <==> v < TWO_64)
  {
  }

  lemma ConcatTiles(left: Range, right: Range, xs: seq<Range>, ys: seq<Range>)
    requires Tiles(left, xs) && Tiles(right, ys) && left.hi + 1 == right.lo
    ensures Tiles(Range(left.lo, right.hi), xs + ys)
  {
    var zs := xs + ys;
    forall k | 0 <= k < |zs| - 1
      ensures zs[k].hi + 1 == zs[k + 1].lo
    {
      if k == |xs| - 1 {
        assert zs[k + 1] == ys[0];
      }
    }
  }

  lemma {:induction false} RequestsTile(whole: Range, bigPage: u64, chunks: nat)
    requires whole.lo <= whole.hi && BothReach(whole, bigPage) && 0 < chunks <= LastTurn(whole, bigPage) + 1
    ensures forall i: nat :: i < chunks ==> Stops(PieceAt(whole, bigPage, i), REQUEST_SIZE)
    ensures Tiles(Range(whole.lo, PieceAt(whole, bigPage, chunks - 1).hi), Requests(whole, bigPage, chunks))
  {
    ChunksStop(whole, bigPage, chunks);
    var pieces := ChunkTiles(whole, bigPage, chunks - 1);
    if chunks == 1 {
      FirstChunkTiles(whole, bigPage, pieces);
    } else {
      RequestsTile(whole, bigPage, chunks - 1);
      NextPiece(whole, bigPage, chunks - 2);
      ChunkAppended(whole, bigPage, chunks, pieces);
    }
  }

  lemma ChunkTiles(whole: Range, bigPage: u64, i: nat) returns (pieces: seq<Range>)
    requires whole.lo <= whole.hi && BothReach(whole, bigPage) && i <= LastTurn(whole, bigPage)
    ensures var chunk := PieceAt(whole, bigPage, i);
            Stops(chunk, REQUEST_SIZE) && AreThePieces(chunk, REQUEST_SIZE, pieces) && Tiles(chunk, pieces)
  {
    EarlierChunksReach(whole, bigPage, i);
    pieces := PiecesTile(PieceAt(whole, bigPage, i), REQUEST_SIZE);
  }

  lemma FirstChunkTiles(whole: Range, bigPage: u64, pieces: seq<Range>)
    requires Stops(PieceAt(whole, bigPage, 0), REQUEST_SIZE)
    requires AreThePieces(PieceAt(whole, bigPage, 0), REQUEST_SIZE, pieces)
    requires Tiles(PieceAt(whole, bigPage, 0), pieces)
    ensures Tiles(Range(whole.lo, PieceAt(whole, bigPage, 0).hi), Requests(whole, bigPage, 1))
  {
    RequestsOneMore(whole, bigPage, 1, pieces);
    FirstPiece(whole, bigPage);
  }

  lemma ChunkAppended(whole: Range, bigPage: u64, chunks: nat, pieces: seq<Range>)
    requires forall i: nat :: i < chunks ==> Stops(PieceAt(whole, bigPage, i), REQUEST_SIZE)
    requires chunks > 1 && PieceAt(whole, bigPage, chunks - 2).hi + 1 == PieceAt(whole, bigPage, chunks - 1).lo
    requires AreThePieces(PieceAt(whole, bigPage, chunks - 1), REQUEST_SIZE, pieces)
    requires Tiles(PieceAt(whole, bigPage, chunks - 1), pieces)
    requires Tiles(Range(whole.lo, PieceAt(whole, bigPage, chunks - 2).hi), Requests(whole, bigPage, chunks - 1))
    ensures Tiles(Range(whole.lo, PieceAt(whole, bigPage, chunks - 1).hi), Requests(whole, bigPage, chunks))
  {
    var before, last := Range(whole.lo, PieceAt(whole, bigPage, chunks - 2).hi), PieceAt(whole, bigPage, chunks - 1);
    RequestsOneMore(whole, bigPage, chunks, pieces);
    ConcatTiles(before, last, Requests(whole, bigPage, chunks - 1), pieces);
  }

  lemma RequestsOneMore(whole: Range, bigPage: u64, chunks: nat, pieces: seq<Range>)
    requires forall i: nat :: i < chunks ==> Stops(PieceAt(whole, bigPage, i), REQUEST_SIZE)
    requires chunks > 0 && AreThePieces(PieceAt(whole, bigPage, chunks - 1), REQUEST_SIZE, pieces)
    ensures Requests(whole, bigPage, chunks) == Requests(whole, bigPage, chunks - 1) + pieces
    ensures chunks == 1 ==> Requests(whole, bigPage, chunks) == pieces
  {
    var chunk := PieceAt(whole, bigPage, chunks - 1);
    assert pieces == seq(Total(chunk, REQUEST_SIZE), (k: nat) => PieceAt(chunk, REQUEST_SIZE, k));
  }

  lemma ChunksStop(whole: Range, bigPage: u64, chunks: nat)
    requires whole.lo <= whole.hi && BothReach(whole, bigPage) && chunks <= LastTurn(whole, bigPage) + 1
    ensures forall i: nat :: i < chunks ==> Stops(PieceAt(whole, bigPage, i), REQUEST_SIZE)
  {
    forall i: nat | i < chunks
      ensures Stops(PieceAt(whole, bigPage, i), REQUEST_SIZE)
    {
      EarlierChunksReach(whole, bigPage, i);
      ReachesTiles(PieceAt(whole, bigPage, i), REQUEST_SIZE);
    }
  }

  lemma PiecesTile(whole: Range, size: u64) returns (pieces: seq<Range>)
    requires whole.lo <= whole.hi && Reaches(whole, size)
    ensures Stops(whole, size) && AreThePieces(whole, size, pieces) && Tiles(whole, pieces)
  {
    ReachesTiles(whole, size);
    pieces := seq(Total(whole, size), (k: nat) => PieceAt(whole, size, k));
    assert AreThePieces(whole, size, pieces);
  }

  /** An inverted chunk makes an inverted request. */
  lemma InvertedChunk(chunk: Range)
    requires chunk.lo > chunk.hi
    ensures var p := PieceAt(chunk, REQUEST_SIZE, 0); p.lo > p.hi
  {
  }

  lemma {:induction false} RequestsContain(whole: Range, bigPage: u64, chunks: nat, i: nat, k: nat)
    requires forall i: nat :: i < chunks ==> Stops(PieceAt(whole, bigPage, i), REQUEST_SIZE)
    requires i < chunks && k < Total(PieceAt(whole, bigPage, i), REQUEST_SIZE)
    ensures PieceAt(PieceAt(whole, bigPage, i), REQUEST_SIZE, k) in Requests(whole, bigPage, chunks)
  {
    var chunk := PieceAt(whole, bigPage, chunks - 1);
    var pieces := seq(Total(chunk, REQUEST_SIZE), (k: nat) => PieceAt(chunk, REQUEST_SIZE, k));
    assert Requests(whole, bigPage, chunks) == Requests(whole, bigPage, chunks - 1) + pieces;
    if i == chunks - 1 {
      assert pieces[k] == PieceAt(chunk, REQUEST_SIZE, k);
    } else {
      RequestsContain(whole, bigPage, chunks - 1, i, k);
    }
  }

  /** Exactly when the two nested loops cover the requested heights: they leave and their requests tile [lo,hi] if
      and only if both exit tests are met in the last turn.  Each request spans at most 20 heights in any case. */
  lemma TwoLevelCover(whole: Range, bigPage: u64)
    requires whole.lo <= whole.hi
    ensures AllStop(whole, bigPage) && Tiles(whole, Requests(whole, bigPage, Total(whole, bigPage)))
            <==> BothReach(whole, bigPage)
  {
    if BothReach(whole, bigPage) {
      ReachesTiles(whole, bigPage);
      LastChunkRegular(whole, bigPage);
      RequestsTile(whole, bigPage, LastTurn(whole, bigPage) + 1);
    } else if AllStop(whole, bigPage) {
      var t := Total(whole, bigPage);
      var chunks := seq(t, (k: nat) => PieceAt(whole, bigPage, k));
      assert AreThePieces(whole, bigPage, chunks);
      var i, k: nat;
      if !Reaches(whole, bigPage) {
        OverrunInverts(whole, bigPage, chunks);
        i :| 0 <= i < |chunks| && chunks[i].lo > chunks[i].hi;
        k := 0;
        InvertedChunk(chunks[i]);
      } else {
        LastChunkRegular(whole, bigPage);
        ReachesTiles(whole, bigPage);
        i := t - 1;
        var pieces := seq(Total(chunks[i], REQUEST_SIZE), (k: nat) => PieceAt(chunks[i], REQUEST_SIZE, k));
        OverrunInverts(chunks[i], REQUEST_SIZE, pieces);
        k :| 0 <= k < |pieces| && pieces[k].lo > pieces[k].hi;
      }
      RequestsContain(whole, bigPage, t, i, k);
    }
  }

  /** The bound asked of callers in practice is enough. */
  lemma FarFromTheEnd(whole: Range, bigPage: u64)
    requires 1 <= bigPage && whole.lo <= whole.hi
    requires whole.hi + bigPage - 1 < TWO_64 && whole.hi + 19 < TWO_64
    ensures BothReach(whole, bigPage)
  {
    Multiples(whole.hi - whole.lo, bigPage, LastTurn(whole, bigPage));
    LastChunkRegular(whole, bigPage);
    StepBelow(PieceAt(whole, bigPage, LastTurn(whole, bigPage)));
  }

  /** A configuration that never leaves: with `bigPage` zero every turn computes the same end, below the range. */
  lemma ZeroPageNeverStops(whole: Range)
    requires 1 <= whole.lo <= whole.hi
    ensures !Stops(whole, 0)
  {
    forall n: nat
      ensures PieceAt(whole, 0, n).hi != whole.hi
    {
      ConstantEnd(whole, n);
    }
  }
}
