/** The ends that are not good ones: exactly when a cancelled task may hang, and tasks that fail in any chunk. */
module Endings {
  import opened Blocks
  import opened Control
  import opened Delivery
  import opened Flow
  import opened Machine
  import opened Progress
  import opened Ranges
  import Stream
  import Sums
  import opened Termination

  // ----- how many messages a task has to send -----

  function HeightCount(c: Config): u64 -> nat {
    (h: u64) => 1 + |c.txs(h)|
  }

  /** One message for every block of the range, and one for every transaction. */
  function Messages(c: Config): nat {
    Sums.Sum(HeightCount(c), Heights(c.range.lo, c.range.hi))
  }

  lemma {:induction false} HeightsSize(c: Config, chain: u64 -> Block, hs: seq<u64>)
    ensures |Sums.Bag(HeightBag(c, chain), hs)| == Sums.Sum(HeightCount(c), hs)
  {
    if hs != [] {
      SingletonsSize(WithBlock(chain(hs[0])), c.txs(hs[0]));
      HeightsSize(c, chain, hs[1..]);
    }
  }

  lemma DeliverySize(c: Config, chain: u64 -> Block)
    ensures |RangeDelivery(c, chain, c.range.lo, c.range.hi)| == Messages(c)
  {
    HeightsSize(c, chain, Heights(c.range.lo, c.range.hi));
  }

  // ----- a run that hangs -----

  /** The step is a request that gets its answer. */
  predicate Answering(s: State, a: Action) {
    || (a.FetcherStep? && a.ok && a.k < |s.fetchers| && s.fetchers[a.k].Asking?)
    || (a.WorkerStep? && a.ok && a.k < |s.workers| && s.workers[a.k].Fetching?)
  }

  /** No request of the run is answered once the context is done: the rate limiter refuses it. */
  ghost predicate Refuses(c: Config, run: seq<Action>) {
    forall i :: 0 <= i < |run| && Legal(c, Initial(c), run[..i]) ==>
      var s := After(c, Initial(c), run[..i]);
      ContextDone(s) ==> !Answering(s, run[i])
  }

  /** Some run in which the task was cancelled, and no request answered since, reaches a state in which nobody can move
      although the task has not ended. */
  ghost predicate CanHang(c: Config) {
    exists run :: Legal(c, Initial(c), run) && Refuses(c, run) && Hangs(After(c, Initial(c), run))
  }

  ghost predicate Hangs(s: State) {
    s.cancelled && !Terminal(s) && Halted(s)
  }

  /** The task has been brought to s, with no request answered after a cancellation. */
  ghost predicate Brought(c: Config, past: seq<Action>, s: State)
    requires AllStop(c.range, c.bigPage)
  {
    Reached(c, past, s) && Refuses(c, past)
  }

  lemma Taken(c: Config, past: seq<Action>, s: State, a: Action)
    requires AllStop(c.range, c.bigPage) && Brought(c, past, s) && Enabled(s, a)
    requires ContextDone(s) ==> !Answering(s, a)
    ensures Brought(c, past + [a], Step(c, s, a))
  {
    OneMore(c, Initial(c), past, a);
    ChunkKept(c, s, a);
    var run := past + [a];
    forall i | 0 <= i < |run| && Legal(c, Initial(c), run[..i])
      ensures var x := After(c, Initial(c), run[..i]); ContextDone(x) ==> !Answering(x, run[i])
    {
      assert run[..i] == past[..i];
      if i == |past| {
        assert past[..i] == past;
      }
    }
  }

  /** The sender has not been scheduled yet, nobody has cancelled, and no request has failed. */
  ghost predicate Unsent(s: State) {
    s.sender.Selecting? && s.hist.sent == [] && !s.cancelled && !s.main.Done? && FaultFree(s)
  }

  lemma UnsentKept(c: Config, s: State, a: Action)
    requires ControlInv(s) && Unsent(s) && OwnStep(s, a) && Answers(a) && !a.SenderStep?
    ensures Unsent(Step(c, s, a))
  {
    ControlKept(c, s, a);
    FaultFreeKept(c, s, a);
    match a
    case MainStep(pick) => MainLeavesSender(c, s, pick);
    case FetcherStep(k, ok) => FetcherFrame(c, s, k, ok);
    case WorkerStep(k, ok) => WorkerFrame(c, s, k, ok);
    case ConverterStep => ConverterFrame(s);
  }

  lemma MainLeavesSender(c: Config, s: State, pick: u64)
    requires MainEnabled(s, pick)
    ensures var t := MainEffect(c, s, pick);
            && t.sender == s.sender && t.hist.sent == s.hist.sent && t.cancelled == s.cancelled
            && (t.main.Done? ==> s.main.SendError? || s.main.WaitFin?)
  {
    if Gathers(s.main) {
      GatherFrame(c, s);
    } else if Feeds(s.main) {
      FeedFrame(c, s, pick);
    } else {
      WindUpFrame(c, s);
    }
  }

  /** Only the sender can move. */
  ghost predicate WaitsForSender(s: State) {
    forall a :: OwnStep(s, a) ==> a.SenderStep?
  }

  /** Without the sender the others run, with every request answered, until all of them wait. */
  lemma {:induction false} Fill(c: Config, s: State, past: seq<Action>) returns (run: seq<Action>, t: State)
    requires AllStop(c.range, c.bigPage) && Brought(c, past, s) && Unsent(s)
    ensures Brought(c, run, t) && Unsent(t) && WaitsForSender(t)
    decreases RankOf(c, s).chunks, RankOf(c, s).phase, RankOf(c, s).turns, RankOf(c, s).pages,
              RankOf(c, s).fetching, RankOf(c, s).piping, RankOf(c, s).sending
  {
    if WaitsForSender(s) {
      run, t := past, s;
    } else {
      var a := OtherStep(s);
      FillStep(c, s, past, a);
      run, t := Fill(c, Step(c, s, a), past + [a]);
    }
  }

  lemma OtherStep(s: State) returns (a: Action)
    requires !WaitsForSender(s)
    ensures OwnStep(s, a) && Answers(a) && !a.SenderStep?
  {
    var b :| OwnStep(s, b) && !b.SenderStep?;
    a := WithAnswer(b);
  }

  lemma FillStep(c: Config, s: State, past: seq<Action>, a: Action)
    requires AllStop(c.range, c.bigPage) && Brought(c, past, s) && Unsent(s)
    requires OwnStep(s, a) && Answers(a) && !a.SenderStep?
    ensures Brought(c, past + [a], Step(c, s, a)) && Unsent(Step(c, s, a))
    ensures Below(RankOf(c, Step(c, s, a)), RankOf(c, s))
  {
    assert Reachable(c, s);
    ReachableControl(c, s);
    ReachableTodo(c, s);
    Taken(c, past, s, a);
    UnsentKept(c, s, a);
    RankDrops(c, s, a);
  }

  /** With more messages than fit, `out` is full when all wait for the sender. */
  lemma LargeFillsOut(c: Config, chain: u64 -> Block, s: State)
    requires GoodTask(c, chain) && Messages(c) > OUT_CAP && Reachable(c, s) && Unsent(s) && WaitsForSender(s)
    ensures OutStuck(s) && PipePhase(s.main)
  {
    ReachableControl(c, s);
    ReachableTodo(c, s);
    Stream.ReachableStream(c, s);
    UnsentFits(s);
    DeliverySize(c, chain);
    var a := StateMoves(s);
    if s.main.WaitFin? {
      EverythingEnqueued(c, chain, s);
    }
  }

  lemma UnsentFits(s: State)
    requires Stream.FifoInv(s) && CapacityInv(s) && Unsent(s)
    ensures |multiset(s.hist.pushed)| <= OUT_CAP
  {
    assert s.hist.pushed == s.out.buf;
  }

  /** Cancelled then, the sender sends END and leaves; nobody else does anything. */
  lemma SenderLeaves(c: Config, past: seq<Action>, s: State) returns (run: seq<Action>, t: State)
    requires AllStop(c.range, c.bigPage) && Brought(c, past, s) && !s.panicked
    requires s.sender.Selecting? && s.fin == Chan([], false)
    ensures Brought(c, run, t)
    ensures t == s.(cancelled := true, sender := Finished(true), stream := t.stream, fin := Chan([], true))
  {
    var go := SenderStep(false);
    Taken(c, past, s, Cancel);
    run, t := past + [Cancel], s.(cancelled := true);
    Taken(c, run, t, SenderStep(true));
    run, t := run + [SenderStep(true)], SenderEffect(t, true);
    Taken(c, run, t, go);
    run, t := run + [go], SenderEffect(t, false);
    Taken(c, run, t, go);
    run, t := run + [go], SenderEffect(t, false);
    Taken(c, run, t, go);
    run, t := run + [go], SenderEffect(t, false);
  }

  /** Who waited for the sender waits for ever once it has left. */
  lemma StillWaiting(s: State, t: State)
    requires WaitsForSender(s) && !s.panicked && PipePhase(s.main)
    requires t == s.(cancelled := true, sender := Finished(true), stream := t.stream, fin := t.fin)
    ensures Hangs(t)
  {
    forall a | OwnStep(t, a)
      ensures false
    {
      assert OwnStep(s, a);
    }
  }

  lemma LargeTaskHangs(c: Config, chain: u64 -> Block)
    requires GoodTask(c, chain) && Messages(c) > OUT_CAP
    ensures CanHang(c)
  {
    GoodTaskStops(c, chain);
    NothingDone(c);
    var past, s := Fill(c, Initial(c), []);
    assert Reachable(c, s);
    ReachableControl(c, s);
    LargeFillsOut(c, chain, s);
    var run, t := SenderLeaves(c, past, s);
    StillWaiting(s, t);
  }

  // ----- when no run hangs -----

  lemma PartSmaller(c: Config, chain: u64 -> Block, mid: u64)
    requires c.range.lo <= mid <= c.range.hi
    ensures |RangeDelivery(c, chain, c.range.lo, mid)| <= |RangeDelivery(c, chain, c.range.lo, c.range.hi)|
  {
    if mid < c.range.hi {
      DeliveriesAdd(c, chain, c.range.lo, mid, c.range.hi);
    }
  }

  /** What the pipelines started so far stand for is part of the range. */
  lemma StartedSmaller(c: Config, chain: u64 -> Block, s: State)
    requires GoodTask(c, chain) && Reachable(c, s) && PipePhase(s.main)
    ensures |ChunksOutput(c, s.hist.frozen)| <= Messages(c)
  {
    StartedChunks(c, chain, s);
    ChunksDelivered(c, chain, s.hist.frozen);
    PieceInPlace(c.range, c.bigPage, s.chunk);
    PartSmaller(c, chain, PieceAt(c.range, c.bigPage, s.chunk).hi);
    DeliverySize(c, chain);
  }

  lemma StartedChunks(c: Config, chain: u64 -> Block, s: State)
    requires GoodTask(c, chain) && Reachable(c, s) && PipePhase(s.main)
    ensures s.chunk <= LastTurn(c.range, c.bigPage) && ChunkMaps(c, chain, s.hist.frozen, s.chunk + 1)
  {
    ReachableDelivery(c, chain, s);
    GoodTaskStops(c, chain);
  }

  /** Whoever wants to send on `out` has an item that is not enqueued yet. */
  lemma OneMoreToSend(c: Config, s: State)
    requires Reachable(c, s) && OutWanted(s)
    ensures PipePhase(s.main) && |s.hist.pushed| < |ChunksOutput(c, s.hist.frozen)|
  {
    ReachableControl(c, s);
    Conservation(c, s);
    var rest := Remaining(c, s.summary.blocks, s.main);
    if s.main.SendBlock? {
      SomethingRemains(c, s.summary.blocks, s.main);
    } else {
      HeldIsUnderWay(c, s);
    }
    Sizes(multiset(s.hist.pushed), UnderWay(c, s), s.hist.missing, rest);
  }

  lemma SomethingRemains(c: Config, blocks: map<u64, Block>, m: Main)
    requires m.SendBlock? && Fits(blocks, m)
    ensures |Remaining(c, blocks, m)| > 0
  {
    assert BlockItem(blocks[m.h]) in HeightOutput(c, blocks, m.h);
    assert BlockItem(blocks[m.h]) in Remaining(c, blocks, m);
  }

  lemma HeldIsUnderWay(c: Config, s: State)
    requires s.converter.Holding?
    ensures |UnderWay(c, s)| > 0
  {
    assert s.converter.item in HeldBag(s.converter);
    assert s.converter.item in UnderWay(c, s);
  }

  lemma Sizes(a: multiset<Item>, b: multiset<Item>, d: multiset<Item>, e: multiset<Item>)
    ensures |a + b + d + e| == |a| + |b| + |d| + |e|
  {
  }

  lemma HangingIsLarge(c: Config, chain: u64 -> Block, s: State)
    requires GoodTask(c, chain) && Reachable(c, s) && !Terminal(s) && Halted(s)
    ensures Messages(c) > OUT_CAP
  {
    DeadlockFree(c, s);
    Stream.ReachableStream(c, s);
    OneMoreToSend(c, s);
    StartedSmaller(c, chain, s);
  }

  /** Exactly when cancelling can make a task hang: when it has more messages to send than `out` holds. */
  lemma HangsIffLarge(c: Config, chain: u64 -> Block)
    requires GoodTask(c, chain)
    ensures CanHang(c) <==> Messages(c) > OUT_CAP
  {
    if Messages(c) > OUT_CAP {
      LargeTaskHangs(c, chain);
    }
    if CanHang(c) {
      var run :| Legal(c, Initial(c), run) && Refuses(c, run) && Hangs(After(c, Initial(c), run));
      HangingIsLarge(c, chain, After(c, Initial(c), run));
    }
  }

  /** A task no larger than that ends on every schedule, whatever happened before, cancelled or not. */
  lemma SmallTaskEnds(
    c: Config, chain: u64 -> Block, s: State, past: seq<Action>, schedule: (seq<Action>, State) -> Action)
    returns (run: seq<Action>)
    requires GoodTask(c, chain) && Messages(c) <= OUT_CAP && AlwaysMoves(c, schedule)
    requires Legal(c, Initial(c), past) && After(c, Initial(c), past) == s
    ensures past <= run && Follows(c, schedule, run, |past|) && AllEnded(After(c, Initial(c), run))
  {
    GoodTaskStops(c, chain);
    assert Reachable(c, s);
    ReachableDelivery(c, chain, s);
    run := ScheduleHalts(c, s, past, schedule);
    var t := After(c, Initial(c), run);
    assert Reachable(c, t);
    if !Terminal(t) {
      HangingIsLarge(c, chain, t);
    }
    ReachableControl(c, t);
    TerminalAllEnded(t);
  }

  // ----- a run that fails in a given chunk -----

  predicate Refused(fs: seq<Fetcher>) {
    forall k :: 0 <= k < |fs| ==> fs[k].Asking? || fs[k] == Replying(false) || fs[k] == Replied(false)
  }

  /** Every request before chunk j is answered, and every block request of chunk j fails. */
  ghost predicate FailingAt(s: State, j: nat) {
    && s.chunk <= j
    && (s.chunk < j ==> FaultFree(s))
    && (s.chunk == j ==>
          && (Gathers(s.main) || s.main == Done(false))
          && (s.main.Page? || Refused(s.fetchers)))
  }

  /** The same step, its request answered or, in chunk j, refused. */
  function Refusing(a: Action, s: State, j: nat): Action {
    match a
    case FetcherStep(k, _) => FetcherStep(k, s.chunk < j)
    case WorkerStep(k, _) => WorkerStep(k, true)
    case _ => a
  }

  ghost predicate FailingInv(c: Config, s: State, j: nat)
    requires AllStop(c.range, c.bigPage)
  {
    ControlInv(s) && ChunkInv(c, s) && EndInv(c, s) && FailingAt(s, j)
  }

  lemma CollectFails(c: Config, s: State, t: State, j: nat)
    requires ControlInv(s) && ControlInv(t) && FailingAt(s, j) && s.chunk == j
    requires s.main.Collect? && MainEnabled(s, 0) && t == GatherEffect(c, s)
    ensures FailingAt(t, j)
  {
    assert s.fetchers[0].Replied? ==> s.fetchers[0] == Replied(false);
  }

  lemma GatherFails(c: Config, s: State, pick: u64, t: State, j: nat)
    requires ControlInv(s) && ControlInv(t) && FailingAt(s, j) && s.chunk == j
    requires Gathers(s.main) && MainEnabled(s, pick) && t == GatherEffect(c, s)
    ensures FailingAt(t, j)
  {
    GatherFrame(c, s);
    if s.main.Collect? {
      CollectFails(c, s, t, j);
    }
  }

  lemma ReturnFails(c: Config, s: State, t: State, j: nat)
    requires FailingAt(s, j) && s.chunk < j && s.main.Return? && t == WindUpEffect(c, s)
    requires AllStop(c.range, c.bigPage) && j < Total(c.range, c.bigPage) && EndInv(c, t) && FaultFree(t)
    ensures FailingAt(t, j)
  {
  }

  lemma MainLeavesChunk(c: Config, s: State, pick: u64)
    requires MainEnabled(s, pick) && !s.main.Return?
    ensures MainEffect(c, s, pick).chunk == s.chunk
  {
  }

  lemma FetcherFails(c: Config, s: State, k: nat, t: State, j: nat)
    requires FetchInv(s) && FailingAt(s, j) && s.chunk == j && FetcherEnabled(s, k)
    requires t == FetcherEffect(c, s, k, false)
    ensures FailingAt(t, j)
  {
    FetcherFrame(c, s, k, false);
  }

  lemma FailingKept(c: Config, s: State, a: Action, j: nat)
    requires AllStop(c.range, c.bigPage) && j < Total(c.range, c.bigPage)
    requires FailingInv(c, s, j) && Enabled(s, a) && a == Refusing(a, s, j)
    ensures FailingInv(c, Step(c, s, a), j)
  {
    ControlKept(c, s, a);
    ChunkKept(c, s, a);
    EndKept(c, s, a);
    if s.chunk < j {
      AnsweringKept(c, s, a, Step(c, s, a), j);
    } else {
      RefusingKept(c, s, a, Step(c, s, a), j);
    }
  }

  lemma AnsweringKept(c: Config, s: State, a: Action, t: State, j: nat)
    requires AllStop(c.range, c.bigPage) && j < Total(c.range, c.bigPage) && EndInv(c, t)
    requires FailingAt(s, j) && s.chunk < j && Enabled(s, a) && a == Refusing(a, s, j) && t == Step(c, s, a)
    ensures FailingAt(t, j)
  {
    FaultFreeKept(c, s, a);
    if !a.MainStep? {
      KeepsMain(c, s, a);
    } else if s.main.Return? {
      ReturnFails(c, s, t, j);
    } else {
      MainLeavesChunk(c, s, a.pick);
    }
  }

  lemma RefusingKept(c: Config, s: State, a: Action, t: State, j: nat)
    requires ControlInv(s) && ControlInv(t)
    requires FailingAt(s, j) && s.chunk == j && Enabled(s, a) && a == Refusing(a, s, j) && t == Step(c, s, a)
    ensures FailingAt(t, j)
  {
    match a
    case MainStep(pick) => GatherFails(c, s, pick, t, j);
    case FetcherStep(k, _) => FetcherFails(c, s, k, t, j);
    case WorkerStep(k, ok) => WorkerFrame(c, s, k, ok);
    case ConverterStep => ConverterFrame(s);
    case SenderStep(stop) => SenderFrame(s, stop);
    case Cancel =>
  }

  /** A step within a run. */
  lemma {:induction false} RunStep(c: Config, s: State, run: seq<Action>, i: nat)
    requires Legal(c, s, run) && i < |run|
    ensures Legal(c, s, run[..i]) && Legal(c, s, run[..i + 1])
    ensures Enabled(After(c, s, run[..i]), run[i])
    ensures After(c, s, run[..i + 1]) == Step(c, After(c, s, run[..i]), run[i])
    decreases run
  {
    if i == 0 {
      assert run[..0] == [] && run[..1] == [run[0]];
      OneMore(c, s, [], run[0]);
      assert [] + [run[0]] == [run[0]];
    } else {
      RunStep(c, Step(c, s, run[0]), run[1..], i - 1);
      assert run[..i][1..] == run[1..][..i - 1];
      assert run[..i + 1][1..] == run[1..][..i];
    }
  }

  lemma {:induction false} FailingRun(
    c: Config, schedule: (seq<Action>, State) -> Action, run: seq<Action>, i: nat, j: nat)
    requires AllStop(c.range, c.bigPage) && j < Total(c.range, c.bigPage)
    requires Follows(c, schedule, run, 0) && i <= |run|
    requires forall past, s :: schedule(past, s) == Refusing(schedule(past, s), s, j)
    ensures Legal(c, Initial(c), run[..i]) && FailingInv(c, After(c, Initial(c), run[..i]), j)
    decreases i
  {
    if i == 0 {
      InitialControl(c);
      assert run[..0] == [];
    } else {
      FailingRun(c, schedule, run, i - 1, j);
      RunStep(c, Initial(c), run, i - 1);
      FailingKept(c, After(c, Initial(c), run[..i - 1]), run[i - 1], j);
    }
  }

  lemma RefusingSchedule(c: Config, j: nat) returns (schedule: (seq<Action>, State) -> Action)
    ensures AlwaysMoves(c, schedule)
    ensures forall past, s :: schedule(past, s) == Refusing(schedule(past, s), s, j)
  {
    schedule := (past: seq<Action>, s: State) => Refusing(SomeStep(s), s, j);
    forall past: seq<Action>, s | Reachable(c, s) && exists a :: OwnStep(s, a)
      ensures OwnStep(s, schedule(past, s))
    {
      var a :| OwnStep(s, a);
      assert OwnStep(s, WithAnswer(a)) && Answers(WithAnswer(a));
    }
  }

  /** A task can fail in any of its chunks: some uncancelled run ends there, with main's error answer sent. */
  lemma FailsInAnyChunk(c: Config, j: nat) returns (s: State)
    requires AllStop(c.range, c.bigPage) && j < Total(c.range, c.bigPage)
    ensures Reachable(c, s) && AllEnded(s) && s.main == Done(false) && s.chunk == j && !s.cancelled
    ensures Stream.Finals(s.stream) == 2
  {
    var schedule := RefusingSchedule(c, j);
    var run := TaskFinishes(c, schedule);
    FailingRun(c, schedule, run, |run|, j);
    assert run[..|run|] == run;
    s := After(c, Initial(c), run);
    assert Reachable(c, s);
    Stream.FinalMessages(c, s);
  }
}
